/** The read side of the task routes: the owner-scoped filter, the sort-field
    allow-list, ordering, paging arithmetic and the owner-wide statistics of
    GET /api/tasks. */
module TaskQuery {
  import opened Text
  import opened Common
  import opened Schema

  /** The query string. `status` and `priority` hold every value the parameter was
      given, in order: one value is an exact match, several become `$in`. */
  datatype ListQuery = ListQuery(
    status: seq<string>,
    priority: seq<string>,
    search: Option<string>,
    sortBy: Option<string>,
    sortOrder: Option<string>,
    page: int,
    limit: int)

  /** The parameter is truthy: one non-empty value, or an array of values. */
  predicate ParamGiven(p: seq<string>) {
    |p| > 1 || (|p| == 1 && p[0] != "")
  }

  /** The filter a parameter adds: none when not given, otherwise membership. */
  predicate ParamAdmits(p: seq<string>, value: string) {
    !ParamGiven(p) || value in p
  }

  predicate SearchGiven(search: Option<string>) {
    search.Some? && search.value != ""
  }

  /** The filter object: owner, then status, priority and search when given. */
  predicate Matches(t: Task, owner: UserId, q: ListQuery) {
    && t.userId == owner
    && ParamAdmits(q.status, StatusName(t.status))
    && ParamAdmits(q.priority, PriorityName(t.priority))
    && (SearchGiven(q.search) ==>
          ContainsIgnoringCase(t.title, q.search.value) || ContainsIgnoringCase(t.description, q.search.value))
  }

  /** The tasks the filter matches, in store order. */
  function Select(tasks: seq<Task>, owner: UserId, q: ListQuery): (r: seq<Task>)
    ensures |r| <= |tasks|
    ensures forall t :: t in r <==> t in tasks && Matches(t, owner, q)
    ensures multiset(r) <= multiset(tasks)
  {
    if tasks == [] then []
    else
      assert tasks == [tasks[0]] + tasks[1..];
      (if Matches(tasks[0], owner, q) then [tasks[0]] else []) + Select(tasks[1..], owner, q)
  }

  /** `countDocuments(filter)`. */
  function Count(tasks: seq<Task>, owner: UserId, q: ListQuery): nat {
    |Select(tasks, owner, q)|
  }

  // ----- sort specification -----

  datatype SortField = CreatedAt | UpdatedAt | DueDate | PriorityField | TitleField

  const AllowedSortFields: seq<string> := ["createdAt", "updatedAt", "due_date", "priority", "title"]

  function SortFieldName(f: SortField): (r: string)
    ensures r in AllowedSortFields
  {
    match f
    case CreatedAt => "createdAt"
    case UpdatedAt => "updatedAt"
    case DueDate => "due_date"
    case PriorityField => "priority"
    case TitleField => "title"
  }

  /** `sort_by` when it is on the allow-list, `createdAt` otherwise (also when missing). */
  function ChooseSortField(sortBy: Option<string>): (f: SortField)
    ensures sortBy.Some? && sortBy.value in AllowedSortFields ==> SortFieldName(f) == sortBy.value
    ensures !(sortBy.Some? && sortBy.value in AllowedSortFields) ==> f == CreatedAt
  {
    if sortBy == Some("updatedAt") then UpdatedAt
    else if sortBy == Some("due_date") then DueDate
    else if sortBy == Some("priority") then PriorityField
    else if sortBy == Some("title") then TitleField
    else CreatedAt
  }

  /** Ascending iff `sort_order` (default `desc`) lower-cases to `asc`. */
  predicate Ascending(sortOrder: Option<string>) {
    Lower(sortOrder.GetOr("desc")) == "asc"
  }

  /** The value a task is ordered by: dates and timestamps as instants, priority and
      title as their stored strings. A missing due date is null, which sorts first. */
  datatype SortKey = NoKey | Num(n: int) | Str(s: string)

  function KeyOf(t: Task, f: SortField): SortKey {
    match f
    case CreatedAt => Num(t.createdAt)
    case UpdatedAt => Num(t.updatedAt)
    case DueDate => if t.dueDate.Some? then Num(t.dueDate.value) else NoKey
    case PriorityField => Str(PriorityName(t.priority))
    case TitleField => Str(t.title)
  }

  /** The document store's order on these keys: null, then numbers, then strings. */
  predicate KeyLe(a: SortKey, b: SortKey) {
    match (a, b)
    case (NoKey, _) => true
    case (Num(x), NoKey) => false
    case (Num(x), Num(y)) => x <= y
    case (Num(_), Str(_)) => true
    case (Str(_), NoKey) => false
    case (Str(_), Num(_)) => false
    case (Str(x), Str(y)) => LexLe(x, y)
  }

  lemma KeyLeTotal(a: SortKey, b: SortKey)
    ensures KeyLe(a, b) || KeyLe(b, a)
  {
    if a.Str? && b.Str? { LexLeTotal(a.s, b.s); }
  }

  lemma KeyLeTransitive(a: SortKey, b: SortKey, c: SortKey)
    requires KeyLe(a, b) && KeyLe(b, c)
    ensures KeyLe(a, c)
  {
    if a.Str? && b.Str? && c.Str? { LexLeTransitive(a.s, b.s, c.s); }
  }

  /** `a` may precede `b` in a listing sorted on `f`. */
  predicate InOrder(a: Task, b: Task, f: SortField, asc: bool) {
    if asc then KeyLe(KeyOf(a, f), KeyOf(b, f)) else KeyLe(KeyOf(b, f), KeyOf(a, f))
  }

  lemma InOrderTotal(a: Task, b: Task, f: SortField, asc: bool)
    ensures InOrder(a, b, f, asc) || InOrder(b, a, f, asc)
  {
    KeyLeTotal(KeyOf(a, f), KeyOf(b, f));
  }

  lemma InOrderTransitive(a: Task, b: Task, c: Task, f: SortField, asc: bool)
    requires InOrder(a, b, f, asc) && InOrder(b, c, f, asc)
    ensures InOrder(a, c, f, asc)
  {
    if asc {
      KeyLeTransitive(KeyOf(a, f), KeyOf(b, f), KeyOf(c, f));
    } else {
      KeyLeTransitive(KeyOf(c, f), KeyOf(b, f), KeyOf(a, f));
    }
  }

  predicate SortedBy(s: seq<Task>, f: SortField, asc: bool) {
    forall i, j :: 0 <= i < j < |s| ==> InOrder(s[i], s[j], f, asc)
  }

  /** Inserts `t` into a sorted listing, before the first element it may precede. */
  function Insert(t: Task, s: seq<Task>, f: SortField, asc: bool): (r: seq<Task>)
    requires SortedBy(s, f, asc)
    ensures SortedBy(r, f, asc)
    ensures multiset(r) == multiset(s) + multiset{t}
  {
    if s == [] then [t]
    else if InOrder(t, s[0], f, asc) then
      InsertFront(t, s, f, asc);
      [t] + s
    else
      InOrderTotal(t, s[0], f, asc);
      var rest := Insert(t, s[1..], f, asc);
      assert s == [s[0]] + s[1..];
      InsertBehind(s[0], rest, s[1..], t, f, asc);
      [s[0]] + rest
  }

  lemma InsertFront(t: Task, s: seq<Task>, f: SortField, asc: bool)
    requires s != [] && SortedBy(s, f, asc) && InOrder(t, s[0], f, asc)
    ensures SortedBy([t] + s, f, asc)
  {
    var r := [t] + s;
    forall i, j | 0 <= i < j < |r| ensures InOrder(r[i], r[j], f, asc) {
      if i == 0 && j > 1 {
        InOrderTransitive(t, s[0], s[j - 1], f, asc);
      }
    }
  }

  lemma InsertBehind(h: Task, rest: seq<Task>, tail: seq<Task>, t: Task, f: SortField, asc: bool)
    requires SortedBy(rest, f, asc) && SortedBy([h] + tail, f, asc)
    requires multiset(rest) == multiset(tail) + multiset{t}
    requires InOrder(h, t, f, asc)
    ensures SortedBy([h] + rest, f, asc)
  {
    var r := [h] + rest;
    forall i, j | 0 <= i < j < |r| ensures InOrder(r[i], r[j], f, asc) {
      var x := rest[j - 1];
      assert r[j] == x;
      if i == 0 {
        assert x in multiset(rest);
        if x != t {
          assert x in multiset(tail);
          var k :| 0 <= k < |tail| && tail[k] == x;
          var ht := [h] + tail;
          assert ht[0] == h && ht[k + 1] == x;
        }
      } else {
        assert r[i] == rest[i - 1];
      }
    }
  }

  /** The listing of `s` ordered on `f`, ascending or descending; ties keep store order. */
  function SortTasks(s: seq<Task>, f: SortField, asc: bool): (r: seq<Task>)
    ensures SortedBy(r, f, asc)
    ensures multiset(r) == multiset(s)
  {
    if s == [] then []
    else
      assert s == [s[0]] + s[1..];
      Insert(s[0], SortTasks(s[1..], f, asc), f, asc)
  }

  // ----- paging -----

  /** `skip = (page - 1) * limit`. */
  function Skip(page: int, limit: int): (r: int)
    ensures page >= 1 && limit >= 0 ==> r >= 0
  {
    if page >= 1 && limit >= 0 then MulMonotone(page - 1, 0, limit); (page - 1) * limit
    else (page - 1) * limit
  }

  /** `Math.ceil(total / limit)` for a positive limit. */
  function CeilDiv(total: nat, limit: nat): (r: nat)
    requires limit >= 1
    ensures r * limit >= total
    ensures r > 0 ==> (r - 1) * limit < total
    ensures r == 0 <==> total == 0
  {
    if total == 0 then 0
    else
      var r := (total + limit - 1) / limit;
      CeilDivFacts(total, limit, r);
      r
  }

  lemma CeilDivFacts(total: nat, limit: nat, r: nat)
    requires limit >= 1 && total >= 1 && r == (total + limit - 1) / limit
    ensures r * limit >= total && r > 0 && (r - 1) * limit < total
  {
    var m := (total + limit - 1) % limit;
    assert total + limit - 1 == r * limit + m;
    assert 0 <= m < limit;
    assert (r - 1) * limit == r * limit - limit;
  }

  /** `.skip(skip).limit(limit)` on a listing. */
  function PageOf(s: seq<Task>, skip: nat, limit: nat): (r: seq<Task>)
    ensures |r| <= limit
    ensures skip >= |s| ==> r == []
    ensures skip < |s| ==> |r| == (if |s| - skip < limit then |s| - skip else limit)
    ensures forall k :: 0 <= k < |r| ==> r[k] == s[skip + k]
  {
    var lo := if skip < |s| then skip else |s|;
    var hi := if skip + limit < |s| then skip + limit else |s|;
    s[lo..hi]
  }

  /** Every task on a page cut from an ordering of the selection belongs to the
      requester and passes the filter. */
  lemma PageDrawnFromSelection(tasks: seq<Task>, owner: UserId, q: ListQuery, ordered: seq<Task>, skip: nat, limit: nat)
    requires multiset(ordered) == multiset(Select(tasks, owner, q))
    ensures forall t :: t in PageOf(ordered, skip, limit) ==> t in tasks && Matches(t, owner, q)
  {
    var page := PageOf(ordered, skip, limit);
    var matching := Select(tasks, owner, q);
    forall t | t in page ensures t in tasks && Matches(t, owner, q) {
      var k :| 0 <= k < |page| && page[k] == t;
      assert t == ordered[skip + k];
      assert t in multiset(ordered);
      assert t in multiset(matching);
      assert t in matching;
    }
  }

  /** Any page past `ceil(total / limit)` starts beyond the last matching task. */
  lemma PagePastEndIsEmpty(total: nat, page: int, limit: int)
    requires limit >= 1 && page > CeilDiv(total, limit)
    ensures Skip(page, limit) >= total
  {
    var n := CeilDiv(total, limit);
    assert page - 1 >= n;
    assert (page - 1) * limit >= n * limit by {
      MulMonotone(page - 1, n, limit);
    }
  }

  lemma MulMonotone(a: int, b: nat, c: nat)
    requires a >= b
    ensures a * c >= b * c
  {
    assert a * c - b * c == (a - b) * c;
  }

  // ----- statistics -----

  datatype Stats = Stats(total: nat, pending: nat, inProgress: nat, completed: nat, highPriority: nat)

  /** The `$match`/`$group` aggregate over every task of `owner`, or all zeros when
      the owner has none. */
  function StatsOf(tasks: seq<Task>, owner: UserId): (r: Stats)
    ensures r.pending + r.inProgress + r.completed == r.total
    ensures r.highPriority <= r.total
    ensures r.total <= |tasks|
    ensures (forall i :: 0 <= i < |tasks| ==> tasks[i].userId != owner) ==> r == Stats(0, 0, 0, 0, 0)
  {
    if tasks == [] then Stats(0, 0, 0, 0, 0)
    else
      var rest := StatsOf(tasks[1..], owner);
      var t := tasks[0];
      if t.userId != owner then
        assert forall i :: 0 <= i < |tasks[1..]| ==> tasks[1..][i] == tasks[i + 1];
        rest
      else
        Stats(rest.total + 1,
              rest.pending + (if t.status == Pending then 1 else 0),
              rest.inProgress + (if t.status == InProgress then 1 else 0),
              rest.completed + (if t.status == Completed then 1 else 0),
              rest.highPriority + (if t.priority == High then 1 else 0))
  }

  /** The query that filters on nothing but the owner. */
  const NoFilter: ListQuery := ListQuery([], [], None, None, None, 1, 10)

  /** The statistics ignore status, priority and search: their total is the number of
      the owner's tasks, which no filtered count exceeds. */
  lemma {:induction false} StatsTotalIsOwnerCount(tasks: seq<Task>, owner: UserId, q: ListQuery)
    ensures StatsOf(tasks, owner).total == Count(tasks, owner, NoFilter)
    ensures Count(tasks, owner, q) <= StatsOf(tasks, owner).total
  {
    if tasks != [] {
      StatsTotalIsOwnerCount(tasks[1..], owner, q);
    }
  }

  /** Counting with a status filter gives the statistics' figure for that status. */
  lemma {:induction false} StatusCountMatchesStats(tasks: seq<Task>, owner: UserId, s: Status)
    ensures var st := StatsOf(tasks, owner);
      Count(tasks, owner, NoFilter.(status := [StatusName(s)])) ==
        match s
        case Pending => st.pending
        case InProgress => st.inProgress
        case Completed => st.completed
  {
    if tasks != [] {
      StatusCountMatchesStats(tasks[1..], owner, s);
      var q := NoFilter.(status := [StatusName(s)]);
      MatchesStatusOnly(tasks[0], owner, s);
      assert Select(tasks, owner, q) ==
        (if Matches(tasks[0], owner, q) then [tasks[0]] else []) + Select(tasks[1..], owner, q);
    }
  }

  /** The status-only filter accepts exactly the owner's tasks with that status. */
  lemma MatchesStatusOnly(t: Task, owner: UserId, s: Status)
    ensures Matches(t, owner, NoFilter.(status := [StatusName(s)])) <==> t.userId == owner && t.status == s
  {
    var q := NoFilter.(status := [StatusName(s)]);
    assert ParamGiven(q.status);
    assert !ParamGiven(q.priority) && !SearchGiven(q.search);
    if StatusName(t.status) == StatusName(s) {
      EnumRoundTrip(t.status, Low);
      EnumRoundTrip(s, Low);
    }
  }

  // ----- the list response -----

  datatype ListResult = ListResult(
    tasks: seq<Task>,
    page: int,
    limit: int,
    total: nat,
    totalPages: nat,
    stats: Stats)

  /** What GET / answers for `q`: a page cut from an ordering of the requester's
      matching tasks sorted on the requested field, the matching count and the page
      count, an empty page past the last one, and statistics over all of the
      requester's tasks. */
  ghost predicate IsListing(tasks: seq<Task>, owner: UserId, q: ListQuery, ordered: seq<Task>, r: ListResult)
    requires q.page >= 1 && q.limit >= 1
  {
    && multiset(ordered) == multiset(Select(tasks, owner, q))
    && SortedBy(ordered, ChooseSortField(q.sortBy), Ascending(q.sortOrder))
    && r.tasks == PageOf(ordered, Skip(q.page, q.limit), q.limit)
    && (forall t :: t in r.tasks ==> t in tasks && Matches(t, owner, q))
    && r.page == q.page && r.limit == q.limit
    && r.total == |Select(tasks, owner, q)| && r.totalPages == CeilDiv(r.total, q.limit)
    && (q.page > r.totalPages ==> r.tasks == [])
    && r.stats == StatsOf(tasks, owner)
  }

  /** Filtering, sorting and cutting the page as the route does yields a listing. */
  lemma ListingFromSorted(tasks: seq<Task>, owner: UserId, q: ListQuery)
    requires q.page >= 1 && q.limit >= 1
    ensures var matching := Select(tasks, owner, q);
      var ordered := SortTasks(matching, ChooseSortField(q.sortBy), Ascending(q.sortOrder));
      var total := |matching|;
      IsListing(tasks, owner, q, ordered,
        ListResult(PageOf(ordered, Skip(q.page, q.limit), q.limit), q.page, q.limit,
                   total, CeilDiv(total, q.limit), StatsOf(tasks, owner)))
  {
    var matching := Select(tasks, owner, q);
    var ordered := SortTasks(matching, ChooseSortField(q.sortBy), Ascending(q.sortOrder));
    var skip: nat := Skip(q.page, q.limit);
    PageDrawnFromSelection(tasks, owner, q, ordered, skip, q.limit);
    if q.page > CeilDiv(|matching|, q.limit) {
      PagePastEndIsEmpty(|matching|, q.page, q.limit);
    }
  }
}
