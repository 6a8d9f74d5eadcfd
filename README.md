# Task manager backend: task controller model

This project models the task controller of a small task-management REST
backend. It has four handlers:

- **listing** (`GET /api/tasks`): paged, newest first, scoped by role, with an optional date range;
- **creation** (`POST /api/tasks`): the owner is forced to the caller;
- **partial update** (`PUT /api/tasks/:id`): a 404 check, then an owner-or-admin check, then a field-wise merge;
- **delete** (`DELETE /api/tasks/:id`): the same two checks, then physical removal.

The model also covers the task record these handlers work on: a required
title, the status and priority enums with their defaults, and the two
system-set timestamps.

Files and modules:

- `task_schema.dfy`, module `TaskSchema`: the task record, the status and
  priority enums (`todo`/`in-progress`/`done`, default `todo`;
  `low`/`medium`/`high`, default `medium`), the required title, and
  `NewTask`, which builds and validates a new record.
- `http.dfy`, module `Http`: the replies (200 with a value, 404, 403, 500).
- `list_query.dfy`, module `ListQuery`: the listing logic. It covers:
  - page and limit defaults, the skip offset and the page count (`Math.ceil`);
  - the choice of date field;
  - `BuildQuery`, which builds the query document step by step as the handler does;
  - how the store evaluates that query, against a reference predicate `Visible` of what a listing should select;
  - sorting by `createdAt` descending, and the skip/limit window;
  - `ListPage`, the whole listing reply.
- `task_store.dfy`, module `TaskStore`: class `Store`, an in-memory
  collection (`map<TaskId, Task>` plus the next id). Its methods model the four
  handlers. The field merge of an update is a pure function, `Merge`.

Modelling choices:

- Caller, ids, dates and the clock:
  - The caller `{id, role}` is an input, as the authentication middleware supplies it. Only the exact role `"admin"` is special.
  - Ids are plain numbers.
  - Dates are integers.
  - The clock is a `now` parameter.
  - A new record takes the next id. The collection delivers documents in id order, which is creation order. The newest-first sort is stable over that order. The store itself promises no order among equal `createdAt` values.
- Page and limit:
  - Both are modelled as the result of `parseInt`, with `None` for NaN.
  - `x || d` sends NaN and 0 to the default and keeps every other integer, negative ones included.
  - A negative skip is refused by the store, so the handler answers 500.
  - A negative limit asks the store for that many documents in absolute value.
  - `totalPages` is exactly `Math.ceil(total / limit)`.
- Date bounds:
  - A date bound that is missing or the empty string is absent.
  - A range clause matches only tasks that have the selected date. A task with no `dueDate` is never inside a `dueDate` range.
- Validation and HTTP codes:
  - A failed validation answers 500 ("Failed to create task" / "Failed to update task"), because that is what the handlers' catch blocks send.
  - A failed validation is a missing or empty title, or a status or priority outside its enum.
- `updatedAt` on update: the save refreshes it only when title, status or dueDate actually changed.

## Behaviour worth noting

- **Record fields.** The controller reads and writes `user` (the owner) and
  `dueDate`. The schema in `backend/src/models/Task.js` declares neither; it
  declares `assignedTo` instead. The model follows the controller: the record
  has `user` and `dueDate`. It keeps the schema's title requirement, enums,
  defaults and timestamps, and it does not model `assignedTo`. With the schema
  exactly as written, the document store would drop `user` and `dueDate` on save.
- **Validation failures** answer 500, not 400. This is what the handlers' catch blocks send.
- **Title check.** The schema requires a non-empty string and does not trim
  it, so a title of spaces is accepted.
- **Page count.** `totalPages` is 0 when nothing matches. It is not raised to 1.

## Model

| member | source | states |
|---|---|---|
| `TaskSchema.StatusName` | backend/src/models/Task.js:9 | every status has a non-empty stored name |
| `TaskSchema.ParseStatus` | backend/src/models/Task.js:7-11 | a status string is accepted exactly when it is one of todo, in-progress, done |
| `TaskSchema.StatusRoundTrip` | backend/src/models/Task.js:9 | parsing a status name gives the status back, and a string that parses to a status is that status's name |
| `TaskSchema.PriorityName` | backend/src/models/Task.js:14 | every priority has a non-empty stored name |
| `TaskSchema.ParsePriority` | backend/src/models/Task.js:12-16 | a priority string is accepted exactly when it is one of low, medium, high |
| `TaskSchema.PriorityRoundTrip` | backend/src/models/Task.js:14 | parsing a priority name gives the priority back, and the converse |
| `TaskSchema.WellFormed` | backend/src/models/Task.js:5 | a record satisfies the schema's required-title rule exactly when its title, as a present string, is not empty |
| `TaskSchema.StatusOrDefault` | backend/src/models/Task.js:7-11 | an absent status becomes todo; a supplied one is accepted exactly when it is one of the three enum names, and then is the status of that name |
| `TaskSchema.PriorityOrDefault` | backend/src/models/Task.js:12-16 | an absent priority becomes medium; a supplied one is accepted exactly when it is one of the three enum names, and then is the priority of that name |
| `TaskSchema.NewTask` | backend/src/controllers/taskController.js:51-55 | creation succeeds exactly when the title is present and non-empty and any supplied status or priority is in its enum. On success: the owner is the caller's id whatever the body's `user` says; title, description and dueDate come from the body; status defaults to todo and priority to medium; both timestamps are the store's clock |
| `ListQuery.OrDefault` | backend/src/controllers/taskController.js:7-8 | a missing, non-numeric or zero page or limit becomes the default (1 or 5); any other integer is kept; the result is never 0 |
| `ListQuery.SkipOf` | backend/src/controllers/taskController.js:9 | the skip plus one page size is page times the page size, and the skip is 0 exactly on page 1 |
| `ListQuery.DateFieldOf` | backend/src/controllers/taskController.js:14 | the range applies to createdAt exactly when dateField is the string "createdAt"; any other value, or none, selects dueDate |
| `ListQuery.BuildQuery` | backend/src/controllers/taskController.js:17-24 | an admin's query has no owner key and anyone else's is scoped to their id; a date clause exists exactly when a start or end date is given, on the selected field, with one bound per given date; the query matches a task exactly when the reference predicate `Visible` holds (owner-or-admin, inclusive bounds) |
| `ListQuery.Holds` | backend/src/controllers/taskController.js:20-24 | a date range clause holds only for a task that has the selected date |
| `ListQuery.Matches` | backend/src/controllers/taskController.js:17-30 | the empty query an admin sends without dates matches every task, and a query with a date clause matches only tasks that have that date |
| `ListQuery.Filter` | backend/src/controllers/taskController.js:27 | the counted selection is no longer than the documents and holds every document that matches and nothing else |
| `ListQuery.FilterMultiplicity` | backend/src/controllers/taskController.js:27 | the selection holds each matching document exactly as often as the documents do, and no other document |
| `ListQuery.FilterAppend` | backend/src/controllers/taskController.js:27 | selecting from two runs of documents one after the other gives the two selections one after the other |
| `ListQuery.FilterExt` | backend/src/controllers/taskController.js:27 | two conditions that agree on every task select the same documents |
| `ListQuery.Insert` | backend/src/controllers/taskController.js:32 | inserting into a newest-first sequence keeps it newest first and adds exactly that entry |
| `ListQuery.SortByCreatedDesc` | backend/src/controllers/taskController.js:32 | the result is sorted by createdAt descending and is a permutation of the input |
| `ListQuery.Window` | backend/src/controllers/taskController.js:33-34 | at most `n` entries, taken consecutively from offset skip, empty when skip is past the end; a sorted input gives a sorted window |
| `ListQuery.CeilDiv` | backend/src/controllers/taskController.js:40 | no tasks give 0 pages, and a positive total with a positive page size gives at least one page |
| `ListQuery.CeilDivIsCeiling` | backend/src/controllers/taskController.js:40 | the page count is the ceiling of total/limit: for a positive limit, (r-1)*limit < total <= r*limit, mirrored for a negative one |
| `ListQuery.PageTasks` | backend/src/controllers/taskController.js:30-34 | a page holds at most `n` tasks, sorted newest first, each a stored task the caller may see within the date range; its size is exactly `n` or what is left of the matches after skip, whichever is smaller (0 when skip is past the end); its i-th task is the (skip+i)-th of the sorted matches |
| `ListQuery.ListPage` | backend/src/controllers/taskController.js:7-41 | the reply is a 500 exactly when the skip is negative; otherwise total counts every visible task, page is the defaulted page, totalPages is ceil(total/limit), and the tasks are the page at offset skip of size abs(limit) |
| `ListQuery.NonAdminSeesOwnTasks` | backend/src/controllers/taskController.js:17 | for a caller who is not an admin, every counted and every listed task is owned by the caller |
| `ListQuery.AdminSeesAllTasks` | backend/src/controllers/taskController.js:17 | for an admin the owner does not restrict the selection: it is exactly the date filter |
| `ListQuery.TotalIndependentOfPage` | backend/src/controllers/taskController.js:27-40 | total and totalPages do not depend on the page asked for |
| `ListQuery.NoMatchesNoPages` | backend/src/controllers/taskController.js:40 | with nothing matching, totalPages is 0 and the page is empty |
| `ListQuery.PastLastPageSkipsAll` | backend/src/controllers/taskController.js:9-40 | for a positive page size, a page past the page count skips at least as many tasks as match |
| `ListQuery.PageBeyondLastIsEmpty` | backend/src/controllers/taskController.js:30-40 | for a positive limit, a page past totalPages is answered, is empty, and carries the same total |
| `ListQuery.SecondPageOfSeven` | backend/src/controllers/taskController.js:7-40 | page 2 of size 5 over 7 matching tasks holds 2 tasks, out of 2 pages |
| `TaskStore.Authorized` | backend/src/controllers/taskController.js:72-74 | the owner-or-admin rule of an update (and of a delete, lines 98-100) is the rule that scopes a listing: an admin, or the task's owner |
| `TaskStore.MayEditExactlyWhatIsListed` | backend/src/controllers/taskController.js:17-27 | a caller passes the owner-or-admin check of an update or a delete (lines 72 and 98) on a stored task exactly when an unfiltered listing counts that task for them |
| `TaskStore.Merge` | backend/src/controllers/taskController.js:77-81 | title, status and dueDate each take the supplied value only when it is truthy and keep the old one otherwise. Owner, description, priority and createdAt never change. The save fails exactly when a supplied status is outside the enum. updatedAt moves to the clock only when a field changed. A well-formed record stays well formed |
| `TaskStore.MergeIdempotent` | backend/src/controllers/taskController.js:77-81 | applying the same update twice equals applying it once, even with a later clock |
| `TaskStore.EmptyUpdateKeepsTask` | backend/src/controllers/taskController.js:77-79 | an update that supplies nothing leaves the record identical |
| `TaskStore.Collect` | backend/src/controllers/taskController.js:30 | the documents delivered hold exactly the stored entries with ids below the next id, in increasing id order |
| `TaskStore.IdsWhereStep` | backend/src/controllers/taskController.js:27 | raising the id bound by one adds one id exactly when the record at the old bound exists and is kept |
| `TaskStore.FilterCollectStep` | backend/src/controllers/taskController.js:27 | raising the id bound by one adds one selected document exactly when the record at the old bound exists and is kept |
| `TaskStore.CollectCount` | backend/src/controllers/taskController.js:27 | the number of selected documents is the number of stored ids whose record satisfies the condition |
| `TaskStore.TotalCountsEveryVisibleTask` | backend/src/controllers/taskController.js:27 | the listing's total is the number of stored records the caller may see within the date range, as `countDocuments` returns |
| `TaskStore.Store.Docs` | backend/src/controllers/taskController.js:30 | every delivered document is a stored record, and in a valid store every stored record is delivered |
| `TaskStore.Store.GetTasks` | backend/src/controllers/taskController.js:4-41 | in a valid store, the reply built from the step-by-step query equals the listing `ListPage` of the store's documents, and its total is the number of stored records the caller may see within the date range |
| `TaskStore.Store.CreateTask` | backend/src/controllers/taskController.js:49-60 | on success, the record stored under a fresh id is the validated new record, owned by the caller, and nothing else changes; on a validation failure the reply is 500 and the store is unchanged; the store invariant holds |
| `TaskStore.Store.UpdateTask` | backend/src/controllers/taskController.js:64-86 | an absent id answers 404 (for admins too, before any authorisation); a caller who is neither the owner nor an admin gets 403; a rejected status gets 500; in all three cases the store is unchanged; otherwise exactly that record is replaced by the merge |
| `TaskStore.Store.DeleteTask` | backend/src/controllers/taskController.js:90-107 | an absent id answers 404, and a caller who is neither the owner nor an admin gets 403, both leaving the store unchanged; otherwise exactly that id is removed |
| `TaskStore.DeleteTwice` | backend/src/controllers/taskController.js:95 | after a successful delete, deleting the same id again answers 404; an absent id answers 404 every time |
| `TaskStore.OwnerOrAdminMayEdit` | backend/src/controllers/taskController.js:72 | a task created as "Buy milk" is owned by its creator with status todo, even when the body names another owner; another non-admin user's update is refused and the record read back afterwards is the one created; an admin's update of the same id is applied |

## Left out

- The HTTP framework, the router and the authentication middleware: the caller `{id, role}` is an input.
- Persistence: the store is an in-memory map.
  - Store failures (the 500 catch paths for a database error) are left out.
  - The count and the fetch of a listing are left out as separate, non-atomic reads. They see the same documents here, which matters only under concurrent writes.
- `populate("user", "username")`: the listed tasks carry the owner id, not the owner's username. Users are not part of this model.
- Id and record form:
  - ObjectId parsing and `toString` comparison: ids are plain numbers, so a malformed id is simply absent (the real handler would answer 500 for an id that does not parse).
  - The creation spread `{...req.body, user}` (taskController.js:51-54) forwards every body field to the schema, including `assignedTo`, `_id` and `createdAt`. The model's creation body has only title, description, status, priority, dueDate and user. It does not capture a stored `assignedTo`, the 500 answered when `assignedTo` or `_id` does not cast to an ObjectId, the 500 for a duplicate `_id`, or a caller-chosen `createdAt` (the timestamp hook fills `createdAt` only when it is absent).
- Parsing an HTTP request into the model's inputs:
  - `new Date(...)` parsing of date strings; dates are integers, and an unparseable date is not modelled.
  - `parseInt` parsing of page and limit; the parsed value is the input.
  - JavaScript number precision beyond 2^53.
  - Body fields of a type other than string.
  - An update's `dueDate` given as another falsy value (such as 0 or null) is modelled as absent.
- The frontend (pages, the HTTP client wrappers, the auth context): UI state and HTTP calls.
- `ListQuery.PageBeyondLastIsEmpty`: stated for a positive limit only. With a negative limit such as -5, page 1 still returns up to 5 tasks while totalPages is negative, so the property does not hold there.
- `ListQuery.SortByCreatedDesc`: its contract gives sorted order and a permutation. It does not state which order ties take.
