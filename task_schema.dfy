/**
 The task record and its schema rules (backend/src/models/Task.js).

 The record is modelled as the task controller reads and writes it: with an
 owner `user` and a `dueDate`. The schema file itself declares neither of
 them (it declares `assignedTo` instead); this model follows the controller
 and keeps the schema's `title` requirement, its two enums with their
 defaults, and its system-assigned timestamps.
 */
module TaskSchema {

  datatype Option<+T> = None | Some(value: T)

  /** Identities are plain values; the store's ObjectIds are not modelled. */
  type UserId = nat
  type TaskId = nat

  /** Dates are instants on an integer time line. */
  type Instant = int

  datatype Status = Todo | InProgress | Done
  datatype Priority = Low | Medium | High

  /** The default a new record takes when no status is supplied. */
  const DefaultStatus: Status := Todo
  /** The default a new record takes when no priority is supplied. */
  const DefaultPriority: Priority := Medium

  /** The string with which a status is stored and exchanged. */
  function StatusName(s: Status): (r: string)
    ensures r != ""
  {
    match s
    case Todo => "todo"
    case InProgress => "in-progress"
    case Done => "done"
  }

  /** The enum check on `status`: exactly the three listed strings are accepted. */
  function ParseStatus(s: string): (r: Option<Status>)
    ensures r.Some? <==> s in {"todo", "in-progress", "done"}
  {
    if s == "todo" then Some(Todo)
    else if s == "in-progress" then Some(InProgress)
    else if s == "done" then Some(Done)
    else None
  }

  function PriorityName(p: Priority): (r: string)
    ensures r != ""
  {
    match p
    case Low => "low"
    case Medium => "medium"
    case High => "high"
  }

  /** The enum check on `priority`: exactly the three listed strings are accepted. */
  function ParsePriority(s: string): (r: Option<Priority>)
    ensures r.Some? <==> s in {"low", "medium", "high"}
  {
    if s == "low" then Some(Low)
    else if s == "medium" then Some(Medium)
    else if s == "high" then Some(High)
    else None
  }

  /** Parsing is the inverse of naming, in both directions. */
  lemma StatusRoundTrip(s: Status, t: string)
    ensures ParseStatus(StatusName(s)) == Some(s)
    ensures ParseStatus(t) == Some(s) ==> StatusName(s) == t
  {
    match s
    case Todo =>
    case InProgress =>
    case Done =>
  }

  lemma PriorityRoundTrip(p: Priority, t: string)
    ensures ParsePriority(PriorityName(p)) == Some(p)
    ensures ParsePriority(t) == Some(p) ==> PriorityName(p) == t
  {
    match p
    case Low =>
    case Medium =>
    case High =>
  }

  /**
   A stored task. `createdAt` and `updatedAt` are the schema's timestamps;
   in this model both are set by the store's clock.
   */
  datatype Task = Task(
    user: UserId,
    title: string,
    description: Option<string>,
    status: Status,
    priority: Priority,
    dueDate: Option<Instant>,
    createdAt: Instant,
    updatedAt: Instant)

  /** The record invariant the schema enforces on every save: a non-empty title. */
  predicate WellFormed(t: Task)
    ensures WellFormed(t) <==> PresentString(Some(t.title))
  {
    t.title != ""
  }

  /**
   The fields a creation request may carry. `None` stands for a field the
   body leaves out; `user` is whatever owner the body claims.
   */
  datatype CreateBody = CreateBody(
    title: Option<string>,
    description: Option<string>,
    status: Option<string>,
    priority: Option<string>,
    dueDate: Option<Instant>,
    user: Option<UserId>)

  /** The schema's `required` check on a string: present and not the empty string. */
  predicate PresentString(s: Option<string>)
  {
    s.Some? && s.value != ""
  }

  /**
   An enum field that is absent takes its default; a present one is accepted
   exactly when it is one of the enum's names, and then stands for that value.
   */
  function StatusOrDefault(s: Option<string>): (r: Option<Status>)
    ensures s.None? ==> r == Some(Todo)
    ensures s.Some? ==> (r.Some? <==> s.value in {"todo", "in-progress", "done"})
    ensures s.Some? && r.Some? ==> StatusName(r.value) == s.value
  {
    if s.None? then Some(DefaultStatus)
    else
      var r := ParseStatus(s.value);
      assert r.Some? ==> StatusName(r.value) == s.value by {
        if r.Some? { StatusRoundTrip(r.value, s.value); }
      }
      r
  }

  function PriorityOrDefault(s: Option<string>): (r: Option<Priority>)
    ensures s.None? ==> r == Some(Medium)
    ensures s.Some? ==> (r.Some? <==> s.value in {"low", "medium", "high"})
    ensures s.Some? && r.Some? ==> PriorityName(r.value) == s.value
  {
    if s.None? then Some(DefaultPriority)
    else
      var r := ParsePriority(s.value);
      assert r.Some? ==> PriorityName(r.value) == s.value by {
        if r.Some? { PriorityRoundTrip(r.value, s.value); }
      }
      r
  }

  /**
   Building and validating a new record from the spread `{...body, user: owner}`:
   the later `user` key wins, so the body's own `user` is never used. `None`
   is a failed validation. Both timestamps are the store's clock `now`.
   */
  function NewTask(owner: UserId, body: CreateBody, now: Instant): (r: Option<Task>)
    ensures r.Some? <==>
              PresentString(body.title) &&
              (body.status.Some? ==> ParseStatus(body.status.value).Some?) &&
              (body.priority.Some? ==> ParsePriority(body.priority.value).Some?)
    ensures r.Some? ==>
              && r.value.user == owner
              && WellFormed(r.value)
              && r.value.title == body.title.value
              && r.value.description == body.description
              && r.value.dueDate == body.dueDate
              && (body.status.None? ==> r.value.status == Todo)
              && (body.status.Some? ==> StatusName(r.value.status) == body.status.value)
              && (body.priority.None? ==> r.value.priority == Medium)
              && (body.priority.Some? ==> PriorityName(r.value.priority) == body.priority.value)
              && r.value.createdAt == now && r.value.updatedAt == now
  {
    var status := StatusOrDefault(body.status);
    var priority := PriorityOrDefault(body.priority);
    if !PresentString(body.title) || status.None? || priority.None? then None
    else Some(Task(owner, body.title.value, body.description, status.value, priority.value,
                body.dueDate, now, now))
  }
}
