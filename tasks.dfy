/** The task routes over a store of task documents. Every route is scoped by the
    requester: a task is matched on its id AND its owner, so another user's task
    behaves exactly like a missing one. The requester id is what the token gate in
    front of the routes resolved. */
module Tasks {
  import opened Text
  import opened Common
  import opened Schema
  import opened Validation
  import opened TaskQuery

  // ----- building documents from a sanitised body -----

  /** `field || default` for an enumerated field that already passed validation. */
  function StatusOr(f: Field, default: Status): (r: Status)
    ensures Truthy(f) && ParseStatus(f.s).Some? ==> r == ParseStatus(f.s).value
    ensures !Truthy(f) ==> r == default
  {
    if Truthy(f) && ParseStatus(f.s).Some? then ParseStatus(f.s).value else default
  }

  function PriorityOr(f: Field, default: Priority): (r: Priority)
    ensures Truthy(f) && ParsePriority(f.s).Some? ==> r == ParsePriority(f.s).value
    ensures !Truthy(f) ==> r == default
  {
    if Truthy(f) && ParsePriority(f.s).Some? then ParsePriority(f.s).value else default
  }

  /** A due date as stored: a falsy value (missing, null, '') is null, any other is
      cast to a date; `None` from the cast is refused by `DateCasts` before saving. */
  function DueDateOf(f: Field, dates: DateRules): Option<int> {
    if Truthy(f) then dates.toTime(f.s) else None
  }

  /** The document POST / saves: the requester as owner, '' / pending / medium / null
      for a falsy description, status, priority and due date. */
  function NewTask(id: TaskId, owner: UserId, b: TaskBody, dates: DateRules, now: int): (t: Task)
    ensures t.id == id && t.userId == owner && t.title == AsString(b.title)
    ensures t.description == AsString(b.description)
    ensures !Truthy(b.status) ==> t.status == DefaultStatus
    ensures !Truthy(b.priority) ==> t.priority == DefaultPriority
    ensures !Truthy(b.dueDate) ==> t.dueDate == None
    ensures Truthy(b.dueDate) ==> t.dueDate == dates.toTime(b.dueDate.s)
    ensures t.createdAt == now && t.updatedAt == now
  {
    Task(id, owner, AsString(b.title), AsString(b.description),
         StatusOr(b.status, DefaultStatus), PriorityOr(b.priority, DefaultPriority),
         DueDateOf(b.dueDate, dates), now, now)
  }

  /** The `updates` object of PUT /:id applied to a task: exactly the fields the body
      carries change, and `updatedAt`; the id, the owner and `createdAt` never do. */
  function ApplyUpdate(t: Task, b: TaskBody, dates: DateRules, now: int): (r: Task)
    ensures r.id == t.id && r.userId == t.userId && r.createdAt == t.createdAt && r.updatedAt == now
    ensures b.title.Absent? ==> r.title == t.title
    ensures !b.title.Absent? ==> r.title == AsString(b.title)
    ensures b.description.Absent? ==> r.description == t.description
    ensures !b.description.Absent? ==> r.description == AsString(b.description)
    ensures b.status.Absent? ==> r.status == t.status
    ensures b.status.Text? && ParseStatus(b.status.s).Some? ==> r.status == ParseStatus(b.status.s).value
    ensures b.priority.Absent? ==> r.priority == t.priority
    ensures b.priority.Text? && ParsePriority(b.priority.s).Some? ==> r.priority == ParsePriority(b.priority.s).value
    ensures b.dueDate.Absent? ==> r.dueDate == t.dueDate
    ensures Truthy(b.dueDate) ==> r.dueDate == dates.toTime(b.dueDate.s)
    ensures !b.dueDate.Absent? && !Truthy(b.dueDate) ==> r.dueDate == None
  {
    t.(title := if b.title.Absent? then t.title else AsString(b.title),
       description := if b.description.Absent? then t.description else AsString(b.description),
       status := if b.status.Absent? then t.status else StatusOr(b.status, t.status),
       priority := if b.priority.Absent? then t.priority else PriorityOr(b.priority, t.priority),
       dueDate := if b.dueDate.Absent? then t.dueDate else DueDateOf(b.dueDate, dates),
       updatedAt := now)
  }

  /** The length limits of taskSchema on the text fields a body carries: `maxlength`
      counts UTF-16 units, where `isLength` counted characters. */
  predicate FitsSchema(b: TaskBody) {
    && (!b.title.Absent? ==> Utf16Length(AsString(b.title)) <= 100)
    && (!b.description.Absent? ==> Utf16Length(AsString(b.description)) <= 500)
  }

  /** The cast of the due date to a date succeeds: a falsy one is null, and any other
      must be a string `Date` can parse. The cast runs on `save()` and, for an update,
      before the query; a failure is answered 500 like a schema refusal. */
  predicate DateCasts(b: TaskBody, dates: DateRules) {
    Truthy(b.dueDate) ==> dates.toTime(b.dueDate.s).Some?
  }

  /** A due date `isISO8601` accepts but `Date` cannot parse passes taskValidation
      and fails the cast. */
  lemma UncastableDateRefused(b: TaskBody, dates: DateRules)
    requires TaskBodyAccepted(b, dates) && b.dueDate.Text? && b.dueDate.s != ""
    requires dates.toTime(b.dueDate.s).None?
    ensures !DateCasts(SanitizeTask(b), dates)
  {
    assert SanitizeTask(b).dueDate == b.dueDate;
  }

  /** A body that passed taskValidation yields a document taskSchema accepts exactly
      when its text also fits the schema's UTF-16 limits. */
  lemma NewTaskValid(id: TaskId, owner: UserId, b: TaskBody, dates: DateRules, now: int)
    requires TaskBodyAccepted(b, dates)
    ensures TaskValid(NewTask(id, owner, SanitizeTask(b), dates, now)) <==> FitsSchema(SanitizeTask(b))
  {
    var s := SanitizeTask(b);
    var t := NewTask(id, owner, s, dates, now);
    assert t.title == Trim(AsString(b.title));
    if b.description.Absent? {
      assert t.description == "";
    } else {
      assert t.description == Trim(AsString(b.description));
    }
  }

  /** An accepted status or priority is stored as the very string the body named. */
  lemma NewTaskKeepsNames(id: TaskId, owner: UserId, b: TaskBody, dates: DateRules, now: int)
    requires b.status.Text? ==> b.status.s in StatusNames
    requires b.priority.Text? ==> b.priority.s in PriorityNames
    ensures var t := NewTask(id, owner, SanitizeTask(b), dates, now);
      && (b.status.Text? && b.status.s != "" ==> StatusName(t.status) == b.status.s)
      && (b.priority.Text? && b.priority.s != "" ==> PriorityName(t.priority) == b.priority.s)
  {
    var s := SanitizeTask(b);
    assert s.status == b.status && s.priority == b.priority;
  }

  /** Text without characters outside the Basic Multilingual Plane and without
      variation selectors measures the same for the validator and the schema, so an
      accepted body of such text fits the schema. */
  lemma NarrowBodyFits(b: TaskBody, dates: DateRules)
    requires TaskBodyAccepted(b, dates)
    requires forall i :: 0 <= i < |AsString(b.title)| ==> InBmp(AsString(b.title)[i]) && !IsVariationSelector(AsString(b.title)[i])
    requires forall i :: 0 <= i < |AsString(b.description)| ==>
      InBmp(AsString(b.description)[i]) && !IsVariationSelector(AsString(b.description)[i])
    ensures FitsSchema(SanitizeTask(b))
  {
    NarrowTrimMeasures(AsString(b.title));
    if !b.description.Absent? {
      NarrowTrimMeasures(AsString(b.description));
    }
  }

  /** A title of 60 emoji passes taskValidation (60 characters) but not taskSchema
      (120 UTF-16 units): such a body is answered 500, not 201. */
  lemma WideTitleRefused(dates: DateRules)
    ensures var b := TaskBody(Text(seq(60, _ => '\U{1F600}')), Absent, Absent, Absent, Absent);
      TaskBodyAccepted(b, dates) && !FitsSchema(SanitizeTask(b))
  {
    var title := seq(60, _ => '\U{1F600}');
    assert !IsSpace(title[0]) && !IsSpace(title[59]);
    assert Trim(title) == title;
    ValidatorLengthPlain(title);
    Utf16LengthOfAstral(title);
  }

  /** An accepted update of a valid document yields a valid document exactly when
      the text it carries fits the schema's UTF-16 limits. */
  lemma ApplyUpdateValid(t: Task, b: TaskBody, dates: DateRules, now: int)
    requires TaskValid(t) && TaskBodyAccepted(b, dates)
    ensures TaskValid(ApplyUpdate(t, SanitizeTask(b), dates, now)) <==> FitsSchema(SanitizeTask(b))
  {
    var s := SanitizeTask(b);
    assert AsString(s.title) == Trim(AsString(b.title));
    if !b.description.Absent? {
      assert AsString(s.description) == Trim(AsString(b.description));
    }
  }

  /** An accepted status or priority is stored as the very string the body named. */
  lemma ApplyUpdateKeepsNames(t: Task, b: TaskBody, dates: DateRules, now: int)
    requires b.status.Text? ==> b.status.s in StatusNames
    requires b.priority.Text? ==> b.priority.s in PriorityNames
    ensures var r := ApplyUpdate(t, SanitizeTask(b), dates, now);
      && (b.status.Text? ==> StatusName(r.status) == b.status.s)
      && (b.priority.Text? ==> PriorityName(r.priority) == b.priority.s)
  {
    var s := SanitizeTask(b);
    assert s.status == b.status && s.priority == b.priority;
  }

  // ----- owner-scoped lookup -----

  /** Some task has this id and belongs to `owner`. */
  predicate OwnsTask(tasks: seq<Task>, owner: UserId, id: TaskId) {
    exists i :: 0 <= i < |tasks| && tasks[i].id == id && tasks[i].userId == owner
  }

  /** `findOne({_id: id, user_id: owner})`: the first position matching both. */
  function FindOwned(tasks: seq<Task>, owner: UserId, id: TaskId): (r: Option<nat>)
    ensures r.None? <==> !OwnsTask(tasks, owner, id)
    ensures r.Some? ==> r.value < |tasks| && tasks[r.value].id == id && tasks[r.value].userId == owner
  {
    if tasks == [] then None
    else if tasks[0].id == id && tasks[0].userId == owner then Some(0)
    else
      var rest := FindOwned(tasks[1..], owner, id);
      assert forall i :: 1 <= i < |tasks| ==> tasks[i] == tasks[1..][i - 1];
      if rest.Some? then Some(rest.value + 1) else None
  }

  /** The task a lookup by id and owner finds. */
  function LookupTask(tasks: seq<Task>, owner: UserId, id: TaskId): Option<Task> {
    var i := FindOwned(tasks, owner, id);
    if i.Some? then Some(tasks[i.value]) else None
  }

  /** Other users' tasks cannot influence a lookup: the result is the same when only
      the requester's own tasks exist. */
  lemma {:induction false} LookupSeesOnlyOwner(tasks: seq<Task>, owner: UserId, id: TaskId)
    ensures LookupTask(tasks, owner, id) == LookupTask(Select(tasks, owner, NoFilter), owner, id)
  {
    if tasks != [] {
      var t := tasks[0];
      var rest := Select(tasks[1..], owner, NoFilter);
      LookupSeesOnlyOwner(tasks[1..], owner, id);
      assert tasks == [t] + tasks[1..];
      LookupCons(t, tasks[1..], owner, id);
      if t.userId == owner {
        assert Select(tasks, owner, NoFilter) == [t] + rest;
        LookupCons(t, rest, owner, id);
      } else {
        assert Select(tasks, owner, NoFilter) == rest;
      }
    }
  }

  lemma LookupCons(t: Task, rest: seq<Task>, owner: UserId, id: TaskId)
    ensures LookupTask([t] + rest, owner, id) ==
      if t.id == id && t.userId == owner then Some(t) else LookupTask(rest, owner, id)
  {
    var s := [t] + rest;
    assert s[1..] == rest;
    assert s[0] == t;
    var i := FindOwned(rest, owner, id);
    if i.Some? {
      assert s[i.value + 1] == rest[i.value];
    }
  }

  // ----- bulk status -----

  /** `updateMany({_id: {$in: ids}, user_id: owner}, {status})`. */
  function SetStatusWhere(tasks: seq<Task>, owner: UserId, ids: seq<TaskId>, st: Status, now: int): (r: seq<Task>)
    ensures |r| == |tasks|
    ensures forall i :: 0 <= i < |tasks| ==>
      r[i] == if tasks[i].userId == owner && tasks[i].id in ids then tasks[i].(status := st, updatedAt := now) else tasks[i]
  {
    seq(|tasks|, i requires 0 <= i < |tasks| =>
      if tasks[i].userId == owner && tasks[i].id in ids then tasks[i].(status := st, updatedAt := now) else tasks[i])
  }

  /** The positions of the documents the bulk filter matches. */
  function MatchedPositions(tasks: seq<Task>, owner: UserId, ids: seq<TaskId>): set<nat> {
    set i: nat | i < |tasks| && tasks[i].userId == owner && tasks[i].id in ids
  }

  /** The number of documents the bulk filter matches. */
  function MatchedCount(tasks: seq<Task>, owner: UserId, ids: seq<TaskId>): (n: nat)
    ensures n == |MatchedPositions(tasks, owner, ids)|
  {
    if tasks == [] then
      assert MatchedPositions(tasks, owner, ids) == {};
      0
    else
      var k := |tasks| - 1;
      var init := tasks[..k];
      var hit := tasks[k].userId == owner && tasks[k].id in ids;
      assert MatchedPositions(tasks, owner, ids) ==
        MatchedPositions(init, owner, ids) + (if hit then {k} else {});
      MatchedCount(init, owner, ids) + (if hit then 1 else 0)
  }

  /** A bulk change by one user leaves every other user's statistics as they were. */
  lemma {:induction false} BulkLeavesOthersStats(tasks: seq<Task>, owner: UserId, ids: seq<TaskId>, st: Status, now: int, other: UserId)
    requires other != owner
    ensures StatsOf(SetStatusWhere(tasks, owner, ids, st, now), other) == StatsOf(tasks, other)
  {
    if tasks != [] {
      var r := SetStatusWhere(tasks, owner, ids, st, now);
      assert r[1..] == SetStatusWhere(tasks[1..], owner, ids, st, now);
      BulkLeavesOthersStats(tasks[1..], owner, ids, st, now, other);
    }
  }

  /** The number a string of decimal digits denotes. */
  function DecimalValue(s: string): nat {
    if s == [] then 0
    else
      var c := s[|s| - 1];
      10 * DecimalValue(s[..|s| - 1]) + (if '0' <= c <= '9' then c as int - '0' as int else 0)
  }

  /** Decimal digits of a count, as a template literal prints it: they denote the
      count, with no leading zero. */
  function NatToString(n: nat): (s: string)
    ensures |s| >= 1 && forall i :: 0 <= i < |s| ==> '0' <= s[i] <= '9'
    ensures DecimalValue(s) == n
    ensures s[0] == '0' ==> s == "0"
  {
    var d := ['0' + (n % 10) as char];
    if n < 10 then
      assert DecimalValue(d) == 10 * DecimalValue([]) + n % 10;
      d
    else
      var p := NatToString(n / 10);
      var s := p + d;
      assert s[..|s| - 1] == p;
      assert s[0] == p[0];
      s
  }

  // ----- the store's invariant -----

  /** Every stored document satisfies taskSchema; ids are distinct and below `next`. */
  ghost predicate StoreValid(tasks: seq<Task>, next: TaskId) {
    && (forall i :: 0 <= i < |tasks| ==> TaskValid(tasks[i]) && tasks[i].id < next)
    && (forall i, j :: 0 <= i < j < |tasks| ==> tasks[i].id != tasks[j].id)
  }

  /** Saving a valid document under the next id keeps the store valid. */
  lemma AppendKeepsValid(tasks: seq<Task>, next: TaskId, t: Task)
    requires StoreValid(tasks, next) && TaskValid(t) && t.id == next
    ensures StoreValid(tasks + [t], next + 1)
  {
    var r := tasks + [t];
    assert forall i :: 0 <= i < |tasks| ==> r[i] == tasks[i];
  }

  /** Replacing a document by a valid one with the same id keeps the store valid. */
  lemma ReplaceKeepsValid(tasks: seq<Task>, next: TaskId, i: nat, t: Task)
    requires StoreValid(tasks, next) && i < |tasks| && TaskValid(t) && t.id == tasks[i].id
    ensures StoreValid(tasks[i := t], next)
  {
  }

  /** Removing a document keeps the store valid. */
  lemma RemoveKeepsValid(tasks: seq<Task>, next: TaskId, k: nat)
    requires StoreValid(tasks, next) && k < |tasks|
    ensures StoreValid(tasks[..k] + tasks[k + 1..], next)
  {
    var r := tasks[..k] + tasks[k + 1..];
    assert forall j :: 0 <= j < |r| ==> r[j] == if j < k then tasks[j] else tasks[j + 1];
  }

  class TaskStore {
    var tasks: seq<Task>
    var nextId: TaskId

    /** Every stored document satisfies taskSchema; ids are distinct and below `nextId`. */
    ghost predicate Valid()
      reads this
    {
      StoreValid(tasks, nextId)
    }

    constructor ()
      ensures Valid() && tasks == [] && nextId == 0
    {
      tasks := [];
      nextId := 0;
    }

    /** GET /: the requested page of the filtered, sorted tasks, the filtered count and
        page count, and statistics over all of the requester's tasks. The page is cut
        from some ordering of the matching tasks sorted on the requested field; the
        order among equal keys is not specified. */
    method List(owner: UserId, q: ListQuery) returns (r: ListResult)
      requires q.page >= 1 && q.limit >= 1
      ensures exists ordered :: IsListing(tasks, owner, q, ordered, r)
    {
      var matching := Select(tasks, owner, q);
      var sorted := SortTasks(matching, ChooseSortField(q.sortBy), Ascending(q.sortOrder));
      var total := |matching|;
      ListingFromSorted(tasks, owner, q);
      r := ListResult(PageOf(sorted, Skip(q.page, q.limit), q.limit), q.page, q.limit,
                      total, CeilDiv(total, q.limit), StatsOf(tasks, owner));
      assert IsListing(tasks, owner, q, sorted, r);
    }

    /** GET /:id: the requester's task with this id, else 404. */
    method Get(owner: UserId, id: TaskId) returns (r: Outcome<Task>)
      ensures r.Success? <==> OwnsTask(tasks, owner, id)
      ensures r.Success? ==> r.code == 200 && r.data in tasks && r.data.id == id && r.data.userId == owner
      ensures r.Failure? ==> r == Fail(404, "Task not found")
    {
      var i := FindOwned(tasks, owner, id);
      if i.None? {
        return Fail(404, "Task not found");
      }
      r := Success(200, "", tasks[i.value]);
    }

    /** POST /: the validation chains and handleValidationErrors, then the handler. */
    method Create(owner: UserId, b: TaskBody, dates: DateRules, now: int) returns (r: Outcome<Task>)
      requires Valid()
      modifies this
      ensures Valid()
      ensures !TaskBodyAccepted(b, dates) ==>
        r == Failure(400, "Validation failed", TaskErrors(b, dates)) && unchanged(this)
      ensures TaskBodyAccepted(b, dates) ==> Saved(old(tasks), old(nextId), owner, b, dates, now, r)
    {
      var rejected := HandleValidationErrors<Task>(TaskErrors(b, dates));
      if rejected.Some? {
        return rejected.value;
      }
      r := SaveNew(owner, b, dates, now);
    }

    /** What the POST / handler does with an accepted body: a due date that does not
        cast to a date, or text too long for taskSchema in UTF-16 units, makes `save()`
        reject and the route's catch answer 500; otherwise the document is appended
        under the next id. */
    ghost predicate Saved(before: seq<Task>, next: TaskId, owner: UserId, b: TaskBody, dates: DateRules, now: int, r: Outcome<Task>)
      reads this
    {
      var t := NewTask(next, owner, SanitizeTask(b), dates, now);
      var stored := DateCasts(SanitizeTask(b), dates) && TaskValid(t);
      && (!stored ==> r == Fail(500, "Error creating task") && tasks == before && nextId == next)
      && (stored ==>
            && r == Success(201, "Task created successfully", t)
            && tasks == before + [t] && nextId == next + 1)
    }

    /** The POST / handler: a new document owned by the requester under the next id. */
    method SaveNew(owner: UserId, b: TaskBody, dates: DateRules, now: int) returns (r: Outcome<Task>)
      requires Valid() && TaskBodyAccepted(b, dates)
      modifies this
      ensures Valid()
      ensures Saved(old(tasks), old(nextId), owner, b, dates, now, r)
    {
      var t := NewTask(nextId, owner, SanitizeTask(b), dates, now);
      if !DateCasts(SanitizeTask(b), dates) || !TaskValid(t) {
        return Fail(500, "Error creating task");
      }
      AppendKeepsValid(tasks, nextId, t);
      tasks := tasks + [t];
      nextId := nextId + 1;
      r := Success(201, "Task created successfully", t);
    }

    /** PUT /:id: the validation chains and handleValidationErrors, then the handler. */
    method Update(owner: UserId, id: TaskId, b: TaskBody, dates: DateRules, now: int) returns (r: Outcome<Task>)
      requires Valid()
      modifies this
      ensures Valid() && nextId == old(nextId)
      ensures !TaskBodyAccepted(b, dates) ==>
        r == Failure(400, "Validation failed", TaskErrors(b, dates)) && tasks == old(tasks)
      ensures TaskBodyAccepted(b, dates) ==> Updated(old(tasks), owner, id, b, dates, now, r)
    {
      var rejected := HandleValidationErrors<Task>(TaskErrors(b, dates));
      if rejected.Some? {
        return rejected.value;
      }
      r := SaveUpdate(owner, id, b, dates, now);
    }

    /** What the PUT /:id handler does with an accepted body. The update is cast and
        validated before the query, so a due date that does not cast to a date or text
        too long for the schema answers 500 whether or not the task exists; then a missing or foreign task answers 404; otherwise exactly
        that task takes the update. */
    ghost predicate Updated(before: seq<Task>, owner: UserId, id: TaskId, b: TaskBody, dates: DateRules, now: int, r: Outcome<Task>)
      reads this
    {
      var castable := DateCasts(SanitizeTask(b), dates) && FitsSchema(SanitizeTask(b));
      && (!castable ==> r == Fail(500, "Error updating task") && tasks == before)
      && (castable && !OwnsTask(before, owner, id) ==>
            r == Fail(404, "Task not found") && tasks == before)
      && (castable && OwnsTask(before, owner, id) ==>
            var i := FindOwned(before, owner, id).value;
            && tasks == before[i := ApplyUpdate(before[i], SanitizeTask(b), dates, now)]
            && r == Success(200, "Task updated successfully", tasks[i]))
    }

    /** The PUT /:id handler: the body's fields written onto the requester's task. */
    method SaveUpdate(owner: UserId, id: TaskId, b: TaskBody, dates: DateRules, now: int) returns (r: Outcome<Task>)
      requires Valid() && TaskBodyAccepted(b, dates)
      modifies this
      ensures Valid() && nextId == old(nextId)
      ensures Updated(old(tasks), owner, id, b, dates, now, r)
    {
      if !DateCasts(SanitizeTask(b), dates) || !FitsSchema(SanitizeTask(b)) {
        return Fail(500, "Error updating task");
      }
      var i := FindOwned(tasks, owner, id);
      if i.None? {
        return Fail(404, "Task not found");
      }
      var t := ApplyUpdate(tasks[i.value], SanitizeTask(b), dates, now);
      ApplyUpdateValid(tasks[i.value], b, dates, now);
      ReplaceKeepsValid(tasks, nextId, i.value, t);
      tasks := tasks[i.value := t];
      r := Success(200, "Task updated successfully", t);
    }

    /** DELETE /:id: removes the requester's task with this id, and nothing else. */
    method Delete(owner: UserId, id: TaskId) returns (r: Outcome<()>)
      requires Valid()
      modifies this
      ensures Valid() && nextId == old(nextId)
      ensures !OwnsTask(old(tasks), owner, id) ==> r == Fail(404, "Task not found") && tasks == old(tasks)
      ensures OwnsTask(old(tasks), owner, id) ==>
        var i := FindOwned(old(tasks), owner, id).value;
        && tasks == old(tasks)[..i] + old(tasks)[i + 1..]
        && r == Success(200, "Task deleted successfully", ())
        && !OwnsTask(tasks, owner, id)
    {
      var i := FindOwned(tasks, owner, id);
      if i.None? {
        return Fail(404, "Task not found");
      }
      var k := i.value;
      ghost var before := tasks;
      RemoveKeepsValid(tasks, nextId, k);
      tasks := tasks[..k] + tasks[k + 1..];
      assert forall j :: 0 <= j < |tasks| ==> tasks[j] == if j < k then before[j] else before[j + 1];
      r := Success(200, "Task deleted successfully", ());
    }

    /** PATCH /bulk/status: both inputs are checked before the store is touched; then
        every listed task of the requester takes the new status. */
    method BulkStatus(owner: UserId, ids: Option<seq<TaskId>>, status: Field, now: int) returns (r: Outcome<nat>)
      requires Valid()
      modifies this
      ensures Valid() && nextId == old(nextId)
      ensures (ids.None? || ids.value == []) ==>
        r == Fail(400, "task_ids must be a non-empty array") && tasks == old(tasks)
      ensures ids.Some? && ids.value != [] && !(status.Text? && status.s in StatusNames) ==>
        r == Fail(400, "Invalid status value") && tasks == old(tasks)
      ensures ids.Some? && ids.value != [] && status.Text? && status.s in StatusNames ==>
        && tasks == SetStatusWhere(old(tasks), owner, ids.value, ParseStatus(status.s).value, now)
        && r.Success? && r.code == 200
        && r.data == MatchedCount(old(tasks), owner, ids.value)
        && r.message == NatToString(r.data) + " tasks updated successfully"
    {
      if ids.None? || ids.value == [] {
        return Fail(400, "task_ids must be a non-empty array");
      }
      if !(status.Text? && status.s in StatusNames) {
        return Fail(400, "Invalid status value");
      }
      var st := ParseStatus(status.s).value;
      var n := MatchedCount(tasks, owner, ids.value);
      tasks := SetStatusWhere(tasks, owner, ids.value, st, now);
      r := Success(200, NatToString(n) + " tasks updated successfully", n);
    }
  }
}
