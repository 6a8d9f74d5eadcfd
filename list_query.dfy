/**
 The listing half of the task controller (getTasks in
 backend/src/controllers/taskController.js): the defaults for the page and
 the page size, the query the controller builds for the caller, and how the
 store answers it (count, newest first, skip, limit).
 */
module ListQuery {
  import opened TaskSchema
  import opened Http

  /** The authenticated identity attached to a request; only the role "admin" is special. */
  datatype Caller = Caller(id: UserId, role: string)

  predicate IsAdmin(c: Caller)
  {
    c.role == "admin"
  }

  /** A stored task together with the id the store keeps it under. */
  datatype Entry = Entry(id: TaskId, task: Task)

  /**
   The date part of a listing request. A bound is `None` when it is missing
   or the empty string (both are falsy); `dateField` is the raw string.
   */
  datatype DateFilter = DateFilter(startDate: Option<Instant>, endDate: Option<Instant>, dateField: Option<string>)

  /**
   A listing request. `page` and `limit` are what `parseInt` makes of the
   query string: `None` for NaN (a missing or non-numeric value).
   */
  datatype ListParams = ListParams(page: Option<int>, limit: Option<int>, dates: DateFilter)

  const DefaultPage: int := 1
  const DefaultLimit: int := 5

  /**
   `parseInt(x) || d`: NaN and 0 are falsy and give the default, any other
   integer (negative ones included) is kept.
   */
  function OrDefault(x: Option<int>, d: int): (r: int)
    requires d != 0
    ensures r != 0
    ensures x.None? || x.value == 0 ==> r == d
    ensures x.Some? && x.value != 0 ==> r == x.value
  {
    if x.None? || x.value == 0 then d else x.value
  }

  function PageOf(p: ListParams): int
  {
    OrDefault(p.page, DefaultPage)
  }

  function LimitOf(p: ListParams): int
  {
    OrDefault(p.limit, DefaultLimit)
  }

  /**
   The number of matching tasks skipped before the page starts: page k
   starts after k - 1 pages of `limit` tasks, so only the first page
   skips nothing.
   */
  function SkipOf(p: ListParams): (r: int)
    ensures r + LimitOf(p) == PageOf(p) * LimitOf(p)
    ensures r == 0 <==> PageOf(p) == 1
  {
    var page, limit := PageOf(p), LimitOf(p);
    assert (page - 1) * limit == page * limit - limit;
    assert (page - 1) * limit == 0 ==> page - 1 == 0;
    (page - 1) * limit
  }

  datatype DateField = DueDate | CreatedAt

  /** The range filter applies to `createdAt` only for exactly that string; anything else selects `dueDate`. */
  function DateFieldOf(s: Option<string>): (r: DateField)
    ensures r == CreatedAt <==> s == Some("createdAt")
  {
    if s == Some("createdAt") then CreatedAt else DueDate
  }

  /** The selected date of a task; a task may have no due date, it always has a creation time. */
  function DateOf(t: Task, f: DateField): Option<Instant>
  {
    match f
    case DueDate => t.dueDate
    case CreatedAt => Some(t.createdAt)
  }

  /*
   The query document the controller hands to the store: an optional owner
   key and an optional range clause `{ <field>: { $gte, $lte } }` on one date
   field.
   */

  datatype DateClause = DateClause(field: DateField, gte: Option<Instant>, lte: Option<Instant>)

  datatype Query = Query(user: Option<UserId>, date: Option<DateClause>)

  /**
   How the store evaluates a range clause: a comparison operator matches only
   a task that has the field. An operator object with neither operator is an
   equality test against an empty document, which no date equals.
   */
  predicate Holds(c: DateClause, t: Task)
    ensures Holds(c, t) ==> DateOf(t, c.field).Some?
  {
    var d := DateOf(t, c.field);
    && (c.gte.Some? || c.lte.Some?)
    && (c.gte.Some? ==> d.Some? && d.value >= c.gte.value)
    && (c.lte.Some? ==> d.Some? && d.value <= c.lte.value)
  }

  /** How the store evaluates a query document; the empty document matches every task. */
  predicate Matches(q: Query, t: Task)
    ensures q == Query(None, None) ==> Matches(q, t)
    ensures Matches(q, t) && q.date.Some? ==> DateOf(t, q.date.value.field).Some?
  {
    && (q.user.Some? ==> t.user == q.user.value)
    && (q.date.Some? ==> Holds(q.date.value, t))
  }

  /*
   What a listing is meant to select, stated without a query document.
   */

  /** An admin may see every task; anyone else only the tasks they own. */
  predicate MaySee(c: Caller, t: Task)
  {
    IsAdmin(c) || t.user == c.id
  }

  /**
   With neither bound there is no date condition; otherwise the selected
   date must exist and lie within the given bounds, both inclusive.
   */
  predicate InRange(f: DateFilter, t: Task)
  {
    var d := DateOf(t, DateFieldOf(f.dateField));
    || (f.startDate.None? && f.endDate.None?)
    || (&& d.Some?
        && (f.startDate.Some? ==> f.startDate.value <= d.value)
        && (f.endDate.Some? ==> d.value <= f.endDate.value))
  }

  predicate Visible(c: Caller, f: DateFilter, t: Task)
  {
    MaySee(c, t) && InRange(f, t)
  }

  /**
   Building the query document step by step: the owner scope from the role,
   then, if either bound is given, a range clause on the selected field with
   one operator per given bound.
   */
  method BuildQuery(caller: Caller, f: DateFilter) returns (q: Query)
    ensures q.user == if IsAdmin(caller) then None else Some(caller.id)
    ensures q.date.None? <==> f.startDate.None? && f.endDate.None?
    ensures q.date.Some? ==> q.date.value == DateClause(DateFieldOf(f.dateField), f.startDate, f.endDate)
    ensures forall t :: Matches(q, t) <==> Visible(caller, f, t)
  {
    var field := DateFieldOf(f.dateField);
    q := if IsAdmin(caller) then Query(None, None) else Query(Some(caller.id), None);
    if f.startDate.Some? || f.endDate.Some? {
      var clause := DateClause(field, None, None);
      if f.startDate.Some? {
        clause := clause.(gte := f.startDate);
      }
      if f.endDate.Some? {
        clause := clause.(lte := f.endDate);
      }
      q := q.(date := Some(clause));
    }
  }

  /** The entries whose task satisfies `keep`, in their original order. */
  function Filter(s: seq<Entry>, keep: Task -> bool): (r: seq<Entry>)
    ensures |r| <= |s|
    ensures forall e :: e in r <==> e in s && keep(e.task)
  {
    if s == [] then []
    else (if keep(s[0].task) then [s[0]] else []) + Filter(s[1..], keep)
  }

  /**
   Filtering neither duplicates nor drops a kept entry: each kept entry
   occurs as often as in the input, every other entry not at all.
   */
  lemma {:induction false} FilterMultiplicity(s: seq<Entry>, keep: Task -> bool)
    ensures forall e :: multiset(Filter(s, keep))[e] == if keep(e.task) then multiset(s)[e] else 0
  {
    if s != [] {
      assert s == [s[0]] + s[1..];
      FilterMultiplicity(s[1..], keep);
    }
  }

  /** Filtering a concatenation filters each part. */
  lemma {:induction false} FilterAppend(a: seq<Entry>, b: seq<Entry>, keep: Task -> bool)
    ensures Filter(a + b, keep) == Filter(a, keep) + Filter(b, keep)
  {
    if a == [] {
      assert a + b == b;
    } else {
      var head := if keep(a[0].task) then [a[0]] else [];
      assert (a + b)[0] == a[0];
      assert (a + b)[1..] == a[1..] + b;
      FilterAppend(a[1..], b, keep);
      calc {
        Filter(a + b, keep);
        head + Filter(a[1..] + b, keep);
        head + (Filter(a[1..], keep) + Filter(b, keep));
        (head + Filter(a[1..], keep)) + Filter(b, keep);
      }
    }
  }

  lemma {:induction false} FilterExt(s: seq<Entry>, f: Task -> bool, g: Task -> bool)
    requires forall t :: f(t) == g(t)
    ensures Filter(s, f) == Filter(s, g)
  {
    if s != [] {
      FilterExt(s[1..], f, g);
    }
  }

  /** The entries a listing counts and pages through. */
  function Matching(docs: seq<Entry>, c: Caller, f: DateFilter): seq<Entry>
  {
    Filter(docs, t => Visible(c, f, t))
  }

  predicate SortedDesc(s: seq<Entry>)
  {
    forall i, j :: 0 <= i < j < |s| ==> s[i].task.createdAt >= s[j].task.createdAt
  }

  lemma ConsSorted(x: Entry, s: seq<Entry>)
    requires SortedDesc(s)
    requires forall y :: y in s ==> y.task.createdAt <= x.task.createdAt
    ensures SortedDesc([x] + s)
  {
    var r := [x] + s;
    forall i, j | 0 <= i < j < |r|
      ensures r[i].task.createdAt >= r[j].task.createdAt
    {
      assert r[j] == s[j - 1];
      if i > 0 {
        assert r[i] == s[i - 1];
      }
    }
  }

  function Insert(e: Entry, s: seq<Entry>): (r: seq<Entry>)
    requires SortedDesc(s)
    ensures SortedDesc(r)
    ensures |r| == |s| + 1
    ensures forall x :: x in r <==> x == e || x in s
    ensures multiset(r) == multiset(s) + multiset{e}
  {
    if s == [] || s[0].task.createdAt <= e.task.createdAt then
      assert forall y :: y in s ==> y.task.createdAt <= s[0].task.createdAt;
      ConsSorted(e, s);
      [e] + s
    else
      assert s == [s[0]] + s[1..];
      var rest := Insert(e, s[1..]);
      ConsSorted(s[0], rest);
      [s[0]] + rest
  }

  /**
   `sort({ createdAt: -1 })`: newest first. Ties keep the order the store
   delivered them in (the store itself promises no order among ties).
   */
  function SortByCreatedDesc(s: seq<Entry>): (r: seq<Entry>)
    ensures SortedDesc(r)
    ensures |r| == |s|
    ensures multiset(r) == multiset(s)
  {
    if s == [] then []
    else
      assert s == [s[0]] + s[1..];
      Insert(s[0], SortByCreatedDesc(s[1..]))
  }

  function Min(a: int, b: int): int
  {
    if a <= b then a else b
  }

  function Abs(x: int): nat
  {
    if x < 0 then -x else x
  }

  /** `skip(skip).limit(n)`: at most `n` entries, starting at offset `skip`. */
  function Window(s: seq<Entry>, skip: nat, n: nat): (r: seq<Entry>)
    ensures |r| == if skip >= |s| then 0 else Min(n, |s| - skip)
    ensures forall i :: 0 <= i < |r| ==> r[i] == s[skip + i]
    ensures forall e :: e in r ==> e in s
    ensures SortedDesc(s) ==> SortedDesc(r)
  {
    if skip >= |s| then [] else s[skip..skip + Min(n, |s| - skip)]
  }

  /** `Math.ceil(a / b)` on integers, for a divisor of either sign. */
  function CeilDiv(a: int, b: int): (r: int)
    requires b != 0
    ensures a == 0 ==> r == 0
    ensures a > 0 && b > 0 ==> r > 0
  {
    if b > 0 then -((-a) / b) else -(a / (-b))
  }

  /** CeilDiv is the ceiling: the least integer r with a <= r * b when b > 0 (mirrored when b < 0). */
  lemma CeilDivIsCeiling(a: int, b: int)
    requires b != 0
    ensures b > 0 ==> (CeilDiv(a, b) - 1) * b < a <= CeilDiv(a, b) * b
    ensures b < 0 ==> CeilDiv(a, b) * b <= a < (CeilDiv(a, b) - 1) * b
  {
    var r := CeilDiv(a, b);
    if b > 0 {
      var q := (-a) / b;
      assert -a == b * q + (-a) % b;
      assert r * b == -(q * b);
      assert (r - 1) * b == r * b - b;
    } else {
      var q := a / (-b);
      assert a == (-b) * q + a % (-b);
      assert r * b == q * (-b);
      assert (r - 1) * b == r * b - b;
    }
  }

  /** The body of a listing reply: one page of tasks and the counts that place it. */
  datatype Listing = Listing(tasks: seq<Entry>, total: nat, page: int, totalPages: int)

  /**
   The tasks on one page: the matching entries, newest first, from offset
   `skip`, at most `n` of them.
   */
  function PageTasks(docs: seq<Entry>, caller: Caller, f: DateFilter, skip: nat, n: nat): (r: seq<Entry>)
    ensures |r| <= n
    ensures |r| == if skip >= |Matching(docs, caller, f)| then 0 else Min(n, |Matching(docs, caller, f)| - skip)
    ensures SortedDesc(r)
    ensures forall e :: e in r ==> e in docs && Visible(caller, f, e.task)
    ensures forall i :: 0 <= i < |r| ==>
              skip + i < |Matching(docs, caller, f)| &&
              r[i] == SortByCreatedDesc(Matching(docs, caller, f))[skip + i]
  {
    var matching := Matching(docs, caller, f);
    var sorted := SortByCreatedDesc(matching);
    var r := Window(sorted, skip, n);
    forall e | e in r
      ensures e in docs && Visible(caller, f, e.task)
    {
      assert e in multiset(sorted);
      assert e in matching;
    }
    r
  }

  /**
   The listing reply for the documents `docs` of the store, in the order the
   store holds them. The store refuses a negative skip (a 500 reply); a
   negative limit asks for that many documents in absolute value.
   */
  function ListPage(docs: seq<Entry>, caller: Caller, p: ListParams): (r: Response<Listing>)
    ensures r.Ok? || r.ServerError?
    ensures r.ServerError? <==> SkipOf(p) < 0
    ensures r.Ok? ==> r.value.total == |Matching(docs, caller, p.dates)|
    ensures r.Ok? ==> r.value.page == PageOf(p)
    ensures r.Ok? ==> r.value.totalPages == CeilDiv(r.value.total, LimitOf(p))
    ensures r.Ok? ==> r.value.tasks == PageTasks(docs, caller, p.dates, SkipOf(p), Abs(LimitOf(p)))
  {
    var matching := Matching(docs, caller, p.dates);
    var skip := SkipOf(p);
    if skip < 0 then ServerError
    else
      var tasks := PageTasks(docs, caller, p.dates, skip, Abs(LimitOf(p)));
      Ok(Listing(tasks, |matching|, PageOf(p), CeilDiv(|matching|, LimitOf(p))))
  }

  /** A non-admin caller is shown and counted only their own tasks. */
  lemma NonAdminSeesOwnTasks(docs: seq<Entry>, caller: Caller, p: ListParams)
    requires !IsAdmin(caller)
    ensures forall e :: e in Matching(docs, caller, p.dates) ==> e.task.user == caller.id
    ensures ListPage(docs, caller, p).Ok? ==>
              forall e :: e in ListPage(docs, caller, p).value.tasks ==> e.task.user == caller.id
  {
  }

  /** For an admin the owner plays no part: only the date filter selects. */
  lemma AdminSeesAllTasks(docs: seq<Entry>, caller: Caller, f: DateFilter)
    requires IsAdmin(caller)
    ensures Matching(docs, caller, f) == Filter(docs, t => InRange(f, t))
  {
    FilterExt(docs, t => Visible(caller, f, t), t => InRange(f, t));
  }

  /** The total does not depend on which page is asked for. */
  lemma TotalIndependentOfPage(docs: seq<Entry>, caller: Caller, p: ListParams, page: Option<int>)
    requires ListPage(docs, caller, p).Ok? && ListPage(docs, caller, p.(page := page)).Ok?
    ensures ListPage(docs, caller, p.(page := page)).value.total == ListPage(docs, caller, p).value.total
    ensures ListPage(docs, caller, p.(page := page)).value.totalPages == ListPage(docs, caller, p).value.totalPages
  {
  }

  /** With no matching task there are zero pages (the ceiling is not raised to one). */
  lemma NoMatchesNoPages(docs: seq<Entry>, caller: Caller, p: ListParams)
    requires ListPage(docs, caller, p).Ok? && Matching(docs, caller, p.dates) == []
    ensures ListPage(docs, caller, p).value.totalPages == 0
    ensures ListPage(docs, caller, p).value.tasks == []
  {
  }

  /** For a positive page size, a page past the page count starts at or after the last match. */
  lemma PastLastPageSkipsAll(total: nat, limit: int, page: int)
    requires limit > 0 && page > CeilDiv(total, limit)
    ensures total <= (page - 1) * limit
  {
    var pages := CeilDiv(total, limit);
    CeilDivIsCeiling(total, limit);
    var extra := page - 1 - pages;
    assert extra * limit >= 0;
    assert (page - 1) * limit == pages * limit + extra * limit;
  }

  /**
   For a positive page size, a page past the last one is empty and carries
   the same total.
   */
  lemma PageBeyondLastIsEmpty(docs: seq<Entry>, caller: Caller, p: ListParams)
    requires LimitOf(p) > 0
    requires PageOf(p) > CeilDiv(|Matching(docs, caller, p.dates)|, LimitOf(p))
    ensures ListPage(docs, caller, p).Ok?
    ensures ListPage(docs, caller, p).value.tasks == []
    ensures ListPage(docs, caller, p).value.total == |Matching(docs, caller, p.dates)|
  {
    PastLastPageSkipsAll(|Matching(docs, caller, p.dates)|, LimitOf(p), PageOf(p));
  }

  /** Seven matching tasks, page 2 of size 5: two tasks on the page, two pages in all. */
  lemma SecondPageOfSeven(docs: seq<Entry>, caller: Caller, p: ListParams)
    requires p.page == Some(2) && p.limit == Some(5)
    requires |Matching(docs, caller, p.dates)| == 7
    ensures ListPage(docs, caller, p).Ok?
    ensures |ListPage(docs, caller, p).value.tasks| == 2
    ensures ListPage(docs, caller, p).value.totalPages == 2
  {
  }
}
