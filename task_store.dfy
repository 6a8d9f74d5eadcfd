/**
 The task controller's creation, update and delete handlers
 (backend/src/controllers/taskController.js) and its listing handler, as
 methods of an in-memory task collection. The collection maps ids to
 records; ids are handed out in creation order, and that order is the order
 in which the collection delivers its documents before sorting.
 */
module TaskStore {
  import opened TaskSchema
  import opened Http
  import opened ListQuery

  /**
   The fields of an update request. `None` is a field the body leaves out, or
   gives a falsy value (for `dueDate`, the empty string).
   */
  datatype UpdateBody = UpdateBody(title: Option<string>, status: Option<string>, dueDate: Option<Instant>)

  /** A JavaScript string is truthy when it is present and not empty. */
  predicate Truthy(s: Option<string>)
  {
    s.Some? && s.value != ""
  }

  /**
   The owner-or-admin rule applied before an update and before a delete. It
   is the same rule that scopes a listing.
   */
  predicate Authorized(c: Caller, t: Task)
    ensures Authorized(c, t) <==> MaySee(c, t)
  {
    t.user == c.id || IsAdmin(c)
  }

  /**
   An update applied to a stored record: each of title, status and dueDate
   takes the supplied value when it is truthy and keeps its old one
   otherwise; then the save checks the status enum (`None` is a failed save).
   The save refreshes `updatedAt` exactly when one of the fields changed.
   */
  function Merge(t: Task, b: UpdateBody, now: Instant): (r: Option<Task>)
    ensures r.None? <==> Truthy(b.status) && ParseStatus(b.status.value).None?
    ensures r.Some? ==>
              && r.value.title == (if Truthy(b.title) then b.title.value else t.title)
              && (Truthy(b.status) ==> StatusName(r.value.status) == b.status.value)
              && (!Truthy(b.status) ==> r.value.status == t.status)
              && r.value.dueDate == (if b.dueDate.Some? then b.dueDate else t.dueDate)
              && r.value.user == t.user
              && r.value.description == t.description
              && r.value.priority == t.priority
              && r.value.createdAt == t.createdAt
              && (WellFormed(t) ==> WellFormed(r.value))
    ensures r.Some? && r.value.(updatedAt := t.updatedAt) == t ==> r.value == t
    ensures r.Some? && r.value.(updatedAt := t.updatedAt) != t ==> r.value.updatedAt == now
  {
    var title := if Truthy(b.title) then b.title.value else t.title;
    var statusName := if Truthy(b.status) then b.status.value else StatusName(t.status);
    var dueDate := if b.dueDate.Some? then b.dueDate else t.dueDate;
    StatusRoundTrip(t.status, statusName);
    match ParseStatus(statusName)
    case None => None
    case Some(status) =>
      StatusRoundTrip(status, statusName);
      var merged := t.(title := title, status := status, dueDate := dueDate);
      Some(if merged == t then t else merged.(updatedAt := now))
  }

  /** Sending the same update twice: the second one changes nothing, not even `updatedAt`. */
  lemma MergeIdempotent(t: Task, b: UpdateBody, now: Instant, later: Instant)
    requires Merge(t, b, now).Some?
    ensures Merge(Merge(t, b, now).value, b, later) == Merge(t, b, now)
  {
    var t1 := Merge(t, b, now).value;
    if Truthy(b.status) {
      StatusRoundTrip(t1.status, b.status.value);
    }
  }

  /** An update that supplies nothing leaves the record as it was. */
  lemma EmptyUpdateKeepsTask(t: Task, now: Instant)
    ensures Merge(t, UpdateBody(None, None, None), now) == Some(t)
  {
    StatusRoundTrip(t.status, StatusName(t.status));
  }

  /** The entries of `m` with an id below `n`, in increasing id order. */
  function Collect(m: map<TaskId, Task>, n: nat): (r: seq<Entry>)
    ensures forall e :: e in r <==> e.id < n && e.id in m && m[e.id] == e.task
    ensures forall i, j :: 0 <= i < j < |r| ==> r[i].id < r[j].id
  {
    if n == 0 then []
    else Collect(m, n - 1) + (if n - 1 in m then [Entry(n - 1, m[n - 1])] else [])
  }

  /** The ids below `n` of the stored records that satisfy `keep`. */
  ghost function IdsWhere(m: map<TaskId, Task>, n: nat, keep: Task -> bool): set<TaskId>
  {
    set id: TaskId | id < n && id in m && keep(m[id])
  }

  /** Raising the bound by one adds the record at the old bound, if it is kept. */
  lemma IdsWhereStep(m: map<TaskId, Task>, n: nat, keep: Task -> bool)
    requires n > 0
    ensures |IdsWhere(m, n, keep)| == |IdsWhere(m, n - 1, keep)| + (if n - 1 in m && keep(m[n - 1]) then 1 else 0)
  {
    var before := IdsWhere(m, n - 1, keep);
    if n - 1 in m && keep(m[n - 1]) {
      assert IdsWhere(m, n, keep) == before + {n - 1};
    } else {
      assert IdsWhere(m, n, keep) == before;
    }
  }

  /** Raising the bound by one delivers the record at the old bound last, if there is one. */
  lemma FilterCollectStep(m: map<TaskId, Task>, n: nat, keep: Task -> bool)
    requires n > 0
    ensures |Filter(Collect(m, n), keep)|
            == |Filter(Collect(m, n - 1), keep)| + (if n - 1 in m && keep(m[n - 1]) then 1 else 0)
  {
    var last := if n - 1 in m then [Entry(n - 1, m[n - 1])] else [];
    assert Collect(m, n) == Collect(m, n - 1) + last;
    FilterAppend(Collect(m, n - 1), last, keep);
    assert |Filter(last, keep)| == if n - 1 in m && keep(m[n - 1]) then 1 else 0;
  }

  /**
   Filtering the delivered documents keeps one entry per stored record that
   satisfies the condition: the count is the number of such records.
   */
  lemma {:induction false} CollectCount(m: map<TaskId, Task>, n: nat, keep: Task -> bool)
    ensures |Filter(Collect(m, n), keep)| == |IdsWhere(m, n, keep)|
  {
    if n == 0 {
      assert IdsWhere(m, n, keep) == {};
    } else {
      FilterCollectStep(m, n, keep);
      CollectCount(m, n - 1, keep);
      IdsWhereStep(m, n, keep);
      assert |Filter(Collect(m, n), keep)| == |IdsWhere(m, n, keep)|;
    }
  }

  /**
   The listing's `total` is the number of stored records the caller may see
   within the date range (`countDocuments` of the query).
   */
  lemma TotalCountsEveryVisibleTask(m: map<TaskId, Task>, n: nat, caller: Caller, p: ListParams)
    requires forall id :: id in m ==> id < n
    requires ListPage(Collect(m, n), caller, p).Ok?
    ensures ListPage(Collect(m, n), caller, p).value.total
            == |set id | id in m && Visible(caller, p.dates, m[id])|
  {
    var keep := t => Visible(caller, p.dates, t);
    CollectCount(m, n, keep);
    assert IdsWhere(m, n, keep) == set id | id in m && Visible(caller, p.dates, m[id]);
  }

  /**
   A caller may update or delete exactly the stored tasks that an unfiltered
   listing of the store counts for them.
   */
  lemma MayEditExactlyWhatIsListed(m: map<TaskId, Task>, n: nat, caller: Caller, id: TaskId)
    requires forall i :: i in m ==> i < n
    requires id in m
    ensures Authorized(caller, m[id])
            <==> Entry(id, m[id]) in Matching(Collect(m, n), caller, DateFilter(None, None, None))
  {
  }

  const DeletedMsg: string := "Task deleted"

  class Store {
    /** The stored records by id. */
    var tasks: map<TaskId, Task>
    /** The id the next created record gets. */
    var nextId: TaskId

    ghost predicate Valid()
      reads this
    {
      && (forall id :: id in tasks ==> id < nextId)
      && (forall id :: id in tasks ==> WellFormed(tasks[id]))
    }

    /** The collection's documents, in the order the store delivers them. */
    function Docs(): (r: seq<Entry>)
      reads this
      ensures forall e :: e in r ==> e.id in tasks && tasks[e.id] == e.task
      ensures Valid() ==> forall id :: id in tasks ==> Entry(id, tasks[id]) in r
    {
      Collect(tasks, nextId)
    }

    constructor ()
      ensures Valid() && tasks == map[] && nextId == 0
    {
      tasks := map[];
      nextId := 0;
    }

    /**
     GET /api/tasks: build the query, count what matches, and return the
     requested page of it, newest first.
     */
    method GetTasks(caller: Caller, p: ListParams) returns (r: Response<Listing>)
      requires Valid()
      ensures r == ListPage(Docs(), caller, p)
      ensures r.Ok? ==> r.value.total == |set id | id in tasks && Visible(caller, p.dates, tasks[id])|
    {
      var q := BuildQuery(caller, p.dates);
      var docs := Docs();
      FilterExt(docs, t => Matches(q, t), t => Visible(caller, p.dates, t));
      var matching := Filter(docs, t => Matches(q, t));
      var total := |matching|;
      var page := PageOf(p);
      var limit := LimitOf(p);
      var skip := (page - 1) * limit;
      if skip < 0 {
        // the store rejects a negative skip; the handler answers 500
        return ServerError;
      }
      var found := Window(SortByCreatedDesc(matching), skip, Abs(limit));
      r := Ok(Listing(found, total, page, CeilDiv(total, limit)));
      TotalCountsEveryVisibleTask(tasks, nextId, caller, p);
    }

    /**
     POST /api/tasks: the new record's owner is the caller, whatever the body
     says; a body that fails validation answers 500 and stores nothing.
     */
    method CreateTask(caller: Caller, body: CreateBody, now: Instant) returns (r: Response<Entry>)
      requires Valid()
      modifies this
      ensures Valid()
      ensures r.Ok? || r.ServerError?
      ensures r.ServerError? <==> NewTask(caller.id, body, now).None?
      ensures r.ServerError? ==> tasks == old(tasks) && nextId == old(nextId)
      ensures r.Ok? ==>
                && r.value.task.user == caller.id
                && r.value == Entry(old(nextId), NewTask(caller.id, body, now).value)
                && r.value.id !in old(tasks)
                && tasks == old(tasks)[r.value.id := r.value.task]
                && nextId == old(nextId) + 1
    {
      var t := NewTask(caller.id, body, now);
      if t.None? {
        return ServerError;
      }
      var id := nextId;
      tasks := tasks[id := t.value];
      nextId := nextId + 1;
      r := Ok(Entry(id, t.value));
    }

    /**
     PUT /api/tasks/:id: 404 when there is no such task (checked before the
     caller), 403 when the caller is neither its owner nor an admin, 500 when
     the save rejects the merged status; the record changes only on success.
     */
    method UpdateTask(caller: Caller, id: TaskId, body: UpdateBody, now: Instant) returns (r: Response<Entry>)
      requires Valid()
      modifies this
      ensures Valid() && nextId == old(nextId)
      ensures id !in old(tasks) ==> r == NotFound
      ensures id in old(tasks) && !Authorized(caller, old(tasks)[id]) ==> r == Forbidden
      ensures !r.Ok? ==> tasks == old(tasks)
      ensures id in old(tasks) && Authorized(caller, old(tasks)[id]) ==>
                match Merge(old(tasks)[id], body, now)
                case None => r == ServerError
                case Some(t) => r == Ok(Entry(id, t)) && tasks == old(tasks)[id := t]
    {
      if id !in tasks {
        return NotFound;
      }
      var task := tasks[id];
      if task.user != caller.id && !IsAdmin(caller) {
        return Forbidden;
      }
      var before := task;
      var statusName := if Truthy(body.status) then body.status.value else StatusName(task.status);
      task := task.(title := if Truthy(body.title) then body.title.value else task.title);
      task := task.(dueDate := if body.dueDate.Some? then body.dueDate else task.dueDate);
      // the save: the status enum is checked, then updatedAt is refreshed if anything changed
      StatusRoundTrip(before.status, statusName);
      var status := ParseStatus(statusName);
      if status.None? {
        return ServerError;
      }
      task := task.(status := status.value);
      if task != before {
        task := task.(updatedAt := now);
      }
      tasks := tasks[id := task];
      r := Ok(Entry(id, task));
    }

    /**
     DELETE /api/tasks/:id: the same 404-then-403 checks as an update, then
     the record is removed for good.
     */
    method DeleteTask(caller: Caller, id: TaskId) returns (r: Response<string>)
      requires Valid()
      modifies this
      ensures Valid() && nextId == old(nextId)
      ensures id !in old(tasks) ==> r == NotFound
      ensures id in old(tasks) && !Authorized(caller, old(tasks)[id]) ==> r == Forbidden
      ensures !r.Ok? ==> tasks == old(tasks)
      ensures id in old(tasks) && Authorized(caller, old(tasks)[id]) ==>
                r == Ok(DeletedMsg) && tasks == old(tasks) - {id}
    {
      if id !in tasks {
        return NotFound;
      }
      var task := tasks[id];
      if task.user != caller.id && !IsAdmin(caller) {
        return Forbidden;
      }
      tasks := tasks - {id};
      r := Ok(DeletedMsg);
    }
  }

  /** Deleting a task a second time finds nothing. */
  method DeleteTwice(s: Store, caller: Caller, id: TaskId) returns (first: Response<string>, second: Response<string>)
    requires s.Valid()
    modifies s
    ensures s.Valid()
    ensures first.Ok? ==> second == NotFound && id !in s.tasks
    ensures id !in old(s.tasks) ==> first == NotFound && second == NotFound
  {
    first := s.DeleteTask(caller, id);
    second := s.DeleteTask(caller, id);
  }

  /**
   A task created by one user: another non-admin user's update is refused
   and leaves the record (`kept`, read back after the refusal) as created;
   an admin's update is applied.
   */
  method OwnerOrAdminMayEdit(s: Store, owner: UserId, other: UserId, now: Instant)
      returns (created: Response<Entry>, refused: Response<Entry>, kept: Task, accepted: Response<Entry>)
    requires s.Valid() && owner != other
    modifies s
    ensures created.Ok? && created.value.task.user == owner
    ensures created.value.task.title == "Buy milk" && created.value.task.status == Todo
    ensures refused == Forbidden && kept == created.value.task
    ensures accepted.Ok? && accepted.value.id == created.value.id && accepted.value.task.status == Done
  {
    created := s.CreateTask(Caller(owner, "user"), CreateBody(Some("Buy milk"), None, None, None, None, Some(other)), now);
    var id := created.value.id;
    refused := s.UpdateTask(Caller(other, "user"), id, UpdateBody(None, Some("done"), None), now);
    kept := s.tasks[id];
    accepted := s.UpdateTask(Caller(other, "admin"), id, UpdateBody(None, Some("done"), None), now);
    StatusRoundTrip(accepted.value.task.status, "done");
  }
}
