# DoneZo server: a Dafny model of the task board back end

DoneZo is a personal to-do board: tasks sit in three columns (`todo`,
`inprogress`, `done`), belong to a user by email, and are dragged between
columns. Its Express server (`index.js`) keeps two MongoDB collections, Users
and Tasks, and exposes seven handlers. This project models those handlers as
operations on an in-memory store and proves what they do.

- `documents.dfy` (module `Documents`): optional fields (`None` is JSON
  null, `undefined` or a missing field), the statuses a handler answers
  with, `ValidId` (`ObjectId.isValid`: 24 hex digits) and `ToObjectId`
  (`new ObjectId(s)`, `None` where it throws).
- `registry.dfy` (module `Registry`): the Users collection, `findOne` by
  email, and POST /add-users as a function from the old collection to a
  status and the new collection, with lemmas about repeated registration
  and lookup.
- `board.dfy` (module `Board`): the Tasks collection, the `_id` filter, and
  the effect of POST /add-tasks, PUT /task-update/:id, PUT /tasks/dnd/:_id
  and DELETE /task-del/:id as functions, with lemmas stating what each
  changes and what it leaves alone.
- `listing.dfy` (module `Listing`): GET /tasks/:email: the aggregation
  (`$match`, `$group`, the rank `$switch`, `$sort`) and the post-pass that
  answers exactly the three known categories, as pure functions with lemmas.
- `server.dfy` (module `Server`): class `Store` with fields `users` and
  `tasks` and one method per handler. Each method takes its handler's steps
  (look up, then insert; build the `$set` document field by field, then
  update; ...) and is proved to produce the status and collection of the
  corresponding function, while keeping the store invariant `Valid()`: one
  user per email and one task per `_id`.

Identifiers generated by the driver on insert are parameters (`newId`); a
new task's id is required to be unused, as the unique `_id` index ensures.

Behaviour the code has that a reader of the API might not expect, modelled as
the code has it:

- PUT /task-update/:id with a malformed id answers 500, not 400: the
  `ObjectId` constructor throws inside the `try`.
- PUT /tasks/dnd/:_id with a malformed id throws outside the `try`; the
  async handler's rejection is not caught, so no response is sent
  (`NoResponse`) and nothing changes.
- PUT /tasks/dnd/:_id on an id no task holds inserts a record holding only
  that id, `category` and `modified`. It has no owner email, so it never
  shows up in GET /tasks/:email for anyone (`Listing.UpsertedNeverListed`).
- Nothing checks that a stored category is one of the three; a task with
  any other category (or none) is stored but never listed.

## Model

| member | source | states |
|---|---|---|
| `Documents.ToObjectId` | index.js:209-213 | Parsing an id succeeds exactly when `ObjectId.isValid` holds (24 hex digits), and yields the canonical lower-case form. |
| `Documents.SameObjectId` | index.js:150-153 | Two well-formed id strings select the same document exactly when they agree digit by digit up to letter case. |
| `Documents.CanonicalRoundTrip` | index.js:213 | Parsing the printed form of an identifier gives back that identifier. |
| `Registry.FindFirst` | index.js:42-43 | `findOne({ email })` selects the first user whose email equals the query, and none exactly when no user has it. |
| `Registry.Lookup` | index.js:42-43 | `findOne({ email })` returns nothing exactly when no user has the email, and otherwise the first user in natural order who has it. |
| `Registry.Register` | index.js:38-53 | 409 exactly when some stored user has the posted email, leaving Users unchanged; otherwise 200 and the record appended unchanged. |
| `Registry.LookupUnique` | index.js:56-61 | With one record per email, the lookup returns a record exactly when it is the stored record with that email. |
| `Registry.RegisterKeepsUnique` | index.js:41-52 | Registration preserves "at most one user per email". |
| `Registry.RegisterTwice` | index.js:41-48 | A second registration with the same email answers 409 and changes nothing, whatever the first answered. |
| `Registry.LookupAfterRegister` | index.js:50-60 | After a successful registration, GET /user/:email returns exactly the new record. |
| `Server.Store.Register` | index.js:38-53 | The handler (find, then insert) yields `Registry.Register`'s status and collection, returns the inserted id on success, and keeps one user per email. |
| `Server.Store.GetByEmail` | index.js:56-61 | Returns nothing exactly when no user has the email, and otherwise the one user who has it; the store is unchanged. |
| `Board.IndexOf` | index.js:150-153 | The `{ _id }` filter selects the first task with that id, and none exactly when no task has it. |
| `Board.AppendKeepsUniqueIds` | index.js:64-69 | Inserting a record under an unused `_id` keeps task ids unique. |
| `Board.Stored` | index.js:64-67 | `insertOne` stores the posted record field for field, under the new `_id`. |
| `Server.Store.CreateTask` | index.js:64-69 | The posted record is appended unchanged, without validation, under the new id; 200; ids stay unique. |
| `Board.Truthy` | index.js:147-148 | A field is set only when it is truthy: present and not the empty string. |
| `Board.SetFields` | index.js:150-153 | `$set` overwrites `title` and `description` where the update document holds them, keeps them otherwise, and changes no other field. |
| `Board.UpdateFields` | index.js:141-164 | 500 exactly for a malformed id, 404 exactly for a well-formed id no task holds, 200 otherwise; on 404 and 500 nothing changes. |
| `Board.UpdateFieldsEffect` | index.js:144-153 | On the task with that id, `title` and `description` take the supplied values that are non-empty strings and keep their old values otherwise; every other field and every other task is unchanged. |
| `Server.Store.UpdateFields` | index.js:141-164 | The handler (build `$set` field by field, then `updateOne`) yields `Board.UpdateFields`'s status and collection and keeps ids unique. |
| `Board.MoveCategory` | index.js:167-203 | 404 exactly when body or id is missing; no response for a malformed id; 201 otherwise; nothing changes unless 201. |
| `Board.Upserted` | index.js:178-189 | The upserted document holds the filter's `_id` and the `$set` category and timestamp, and no email, title, description or other field. |
| `Board.MoveExisting` | index.js:178-189 | On an existing id only that task's `category` and `modified` change, to the posted values. |
| `Board.MoveAbsent` | index.js:178-189 | On an absent id the upsert appends a task holding only that id, the category and the timestamp, with no owner email. |
| `Server.Store.MoveCategory` | index.js:167-195 | The handler yields `Board.MoveCategory`'s status and collection, returns the document after the update exactly on 201, and keeps ids unique. |
| `Board.DeleteTask` | index.js:206-226 | 400 exactly for a malformed id, 404 exactly when no task has the id, otherwise 200 with exactly one task fewer; nothing changes unless 200. |
| `Board.DeleteEffect` | index.js:213-221 | A delete removes exactly the task with that id: every other task remains and none with that id is left. |
| `Board.DeleteTwice` | index.js:209-221 | Deleting the same id twice: the second never succeeds or changes anything, and after a first 200 it answers 404. |
| `Server.Store.DeleteTask` | index.js:206-221 | The handler (check id, then `deleteOne`) yields `Board.DeleteTask`'s status and collection and keeps ids unique. |
| `Listing.Filter` | index.js:79 | The selection holds exactly the tasks that satisfy the condition. |
| `Listing.FilterCount` | index.js:79-83 | The selection holds each matching task as many times as the input and no other task. |
| `Listing.Owned` | index.js:79 | `$match` keeps exactly the tasks whose email is the requested one. |
| `Listing.InCategory` | index.js:81-83 | A group collects exactly the tasks whose category equals its key. |
| `Listing.Keys` | index.js:81-82 | The group keys are exactly the category values that occur, each once. |
| `Listing.GroupBy` | index.js:80-85 | `$group` yields one bucket per occurring category, with distinct keys, each holding exactly that category's tasks and never empty. |
| `Listing.Rank` | index.js:87-97 | `todo`, `inprogress` and `done` rank 1, 2 and 3, their place in display order; anything else, a missing category included, ranks 4, after all of them. |
| `Listing.InsertByRank` | index.js:100 | Insertion adds exactly the one bucket (a permutation of the old sequence plus it). |
| `Listing.InsertKeepsSorted` | index.js:100 | Insertion keeps buckets ordered by rank. |
| `Listing.InsertKeepsDistinct` | index.js:100 | Inserting a bucket with a new key keeps keys distinct. |
| `Listing.SortByRank` | index.js:86-100 | `$sort` on the rank yields a permutation of the buckets ordered by `todo`=1, `inprogress`=2, `done`=3, other=4. |
| `Listing.SortKeepsDistinct` | index.js:86-100 | Sorting keeps one bucket per category. |
| `Listing.PermutationKeySet` | index.js:100 | Reordering buckets does not change which categories they cover. |
| `Listing.Aggregate` | index.js:77-109 | The pipeline answers the user's categories, one bucket each, in rank order, each holding exactly the user's tasks of that category. |
| `Listing.FindCategory` | index.js:114-116 | `find` returns a bucket of that category, or none exactly when no bucket has it. |
| `Listing.Backfill` | index.js:111-122 | The post-pass answers exactly the three known categories in the order `todo`, `inprogress`, `done`. |
| `Listing.ListByUser` | index.js:111-122 | Whatever the store holds, exactly three groups, in the order `todo`, `inprogress`, `done`. |
| `Listing.GroupIsSelection` | index.js:78-122 | Each answered group is the user's tasks of that category (empty when there are none). |
| `Listing.Listed` | index.js:78-122 | A task is in the group of category c exactly when it is stored, its email is the requested one and its category is c. |
| `Listing.ListedCount` | index.js:78-122 | The group of category c holds each such task as many times as the store and nothing else. |
| `Listing.UnknownCategoryNotListed` | index.js:89-122 | A task whose category is not one of the three, or missing, is in no answered group. |
| `Listing.NoTasksThreeEmptyGroups` | index.js:111-122 | A user without tasks gets three empty groups. |
| `Listing.UpsertedNeverListed` | index.js:178-189 | The task a drag-and-drop upsert inserts is never listed for any user. |
| `Server.Store.ListTasks` | index.js:72-129 | Answers 200 and exactly `Listing.ListByUser`'s groups: `todo`, `inprogress`, `done` in that order, group i holding exactly the stored tasks of that user and of the i-th category; the store is unchanged, so repeated calls agree. |

## Left out

- Express setup, CORS allow-list, JSON body parsing, dotenv, `app.listen` and the `/` welcome route (index.js:1-15, 239-245): HTTP and configuration plumbing.
- The MongoDB connection URI, client and `createIndex` calls (index.js:17-35): foreign driver; the indexes do not change any result.
- Storage failures: the `catch` branches answering 500 when the driver itself fails (index.js:130-137, 196-202, 222-225, and in /task-update for driver errors) are not modelled; the database always succeeds. The one 500 that follows from the input, a malformed id in /task-update, is modelled.
- Console logging and the message strings of the responses: only statuses and returned data are modelled. The insertion acknowledgement is reduced to the inserted id; the `updateOne` result that /task-update sends with its 200 (index.js:159) is dropped, and `Server.Store.UpdateFields` returns only the status.
- Parsing `new Date(task.modified)` (index.js:177): the resulting `Date` is an opaque `Stamp` value given to the handler.
- ObjectId forms other than a string (12-byte buffers, integers): route parameters are always strings.
- JSON values of other types than strings in `email`, `category`, `title` and `description`, and in the further fields of a posted user or task (`profile` and `others`, for instance a numeric `order` or a `taskTime` date), and an `_id` supplied inside a posted record: fields are modelled as strings and stored ids as generated ones; no property depends on the further fields.
- Registry ids: the `_id` of a new user is a parameter and is not required to be unused; no property of the registry depends on it.
- An empty `$set` (neither title nor description truthy) is taken as a no-op, as MongoDB 5.0 and later treat it; the status then depends only on whether the id matched.
- Races between `findOne` and `insertOne` in /add-users under concurrent requests, and async scheduling generally: every handler runs to completion before the next.
- `Listing.Listed`: states membership and `Listing.ListedCount` multiplicity of a group's tasks, not their order, because MongoDB does not fix the order in which `$push` collects a group; the model keeps the collection's order.
- `Listing.SortByRank`: the order of two buckets of rank 4 is whatever the insertion sort gives, since `$sort` does not fix it; no result depends on it, because the post-pass drops those buckets.
- Versions: the model follows Express 4, bson 6 and Node's default `--unhandled-rejections=throw`. Under Express 4 the uncaught throw in /tasks/dnd/:_id gets no response (`NoResponse`), and under that Node default the unhandled rejection also ends the server process, which the model does not capture; Express 5 would answer 500 instead. bson 6 accepts exactly 24 hex digits as an id string; older bson also accepts any 12-character string, which `ValidId` does not model.
- The 404 branch of /tasks/dnd/:_id (index.js:171-176) cannot be reached through the route: the JSON body parser always sets `req.body` to an object, and the `:_id` route parameter only matches a non-empty path segment, so `req.params._id` is never empty. `Board.MoveCategory` keeps the branch only to mirror the code.
