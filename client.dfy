/** The browser side of the task list: the filter / page / sort state the sidebar,
    the dropdowns, the search box and the pager change, the query string built from
    that state, the page-button window, and the status labels and icons. */
module ClientApp {
  import opened Text
  import opened Common
  import opened Schema
  import opened TaskQuery

  // ----- the query string of loadTasks -----

  /** The listing size the client always asks for. */
  const PageSize: int := 10

  /** The request `loadTasks` sends, as the list route reads it: page, `limit=10`,
      `sort_by` and `sort_order` always; a dropdown status or priority and the search
      text when non-empty; then one more status (any sidebar filter but `all` and
      `high`) or priority (`high`) value for the sidebar. */
  function ListRequest(currentFilter: string, page: int, status: string, priority: string,
                       search: string, sortBy: string, sortOrder: string): (q: ListQuery)
    ensures q.page == page && q.limit == PageSize
    ensures q.sortBy == Some(sortBy) && q.sortOrder == Some(sortOrder)
    ensures q.search.Some? <==> search != ""
    ensures q.search.Some? ==> q.search.value == search
    ensures forall x :: x in q.status <==>
      (x == status && status != "") || (x == currentFilter && currentFilter != "all" && currentFilter != "high")
    ensures forall x :: x in q.priority <==> (x == priority && priority != "") || (x == "high" && currentFilter == "high")
  {
    ListQuery(
      (if status != "" then [status] else []) + (if currentFilter != "all" && currentFilter != "high" then [currentFilter] else []),
      (if priority != "" then [priority] else []) + (if currentFilter == "high" then ["high"] else []),
      if search != "" then Some(search) else None,
      Some(sortBy), Some(sortOrder), page, PageSize)
  }

  /** After the sidebar picked a status (which also set the status dropdown to it), the
      listing holds exactly the requester's tasks with that status. */
  lemma SidebarStatusSelects(f: string, page: int, sortBy: string, sortOrder: string, t: Task, owner: UserId)
    requires f != "" && f != "all" && f != "high"
    ensures Matches(t, owner, ListRequest(f, page, f, "", "", sortBy, sortOrder)) <==>
      t.userId == owner && StatusName(t.status) == f
  {
    var q := ListRequest(f, page, f, "", "", sortBy, sortOrder);
    assert q.status == [f, f];
    assert q.priority == [];
  }

  /** The `all` sidebar entry clears both dropdowns, so only ownership filters. */
  lemma SidebarAllSelects(page: int, sortBy: string, sortOrder: string, t: Task, owner: UserId)
    ensures Matches(t, owner, ListRequest("all", page, "", "", "", sortBy, sortOrder)) <==> t.userId == owner
  {
    var q := ListRequest("all", page, "", "", "", sortBy, sortOrder);
    assert q.status == [] && q.priority == [];
  }

  /** The `high` sidebar entry (which set the priority dropdown to `high`) keeps the
      status dropdown and adds the priority. */
  lemma SidebarHighSelects(page: int, status: string, sortBy: string, sortOrder: string, t: Task, owner: UserId)
    ensures Matches(t, owner, ListRequest("high", page, status, "high", "", sortBy, sortOrder)) <==>
      && t.userId == owner && t.priority == High
      && (status == "" || StatusName(t.status) == status)
  {
    var q := ListRequest("high", page, status, "high", "", sortBy, sortOrder);
    assert q.priority == ["high", "high"];
    if status == "" {
      assert q.status == [];
    } else {
      assert q.status == [status];
    }
    if PriorityName(t.priority) == "high" {
      EnumRoundTrip(t.status, t.priority);
    }
  }

  /** A status chosen in the dropdown while another sidebar status is active widens the
      listing to both statuses instead of replacing the sidebar's. */
  lemma DropdownAddsToSidebar(f: string, s: string, page: int, sortBy: string, sortOrder: string, t: Task, owner: UserId)
    requires f != "" && f != "all" && f != "high" && s != ""
    ensures Matches(t, owner, ListRequest(f, page, s, "", "", sortBy, sortOrder)) <==>
      t.userId == owner && (StatusName(t.status) == s || StatusName(t.status) == f)
  {
    var q := ListRequest(f, page, s, "", "", sortBy, sortOrder);
    assert q.status == [s, f];
    assert q.priority == [];
  }

  /** The client's default sort (`created_at`, `desc`) is not on the server's
      allow-list, so the server sorts by creation time, newest first. */
  lemma DefaultSortFallsBack()
    ensures ChooseSortField(Some("created_at")) == CreatedAt
    ensures !Ascending(Some("desc"))
  {
    assert "created_at" != "createdAt";
    var lowered := Lower("desc");
    assert |lowered| == 4;
    assert lowered[0] == 'd';
  }

  // ----- the page-button window -----

  /** One element of the pager: the previous / next arrows, a numbered button, or the
      `...` rendered in place of page `at`. */
  datatype PageItem = Prev(disabled: bool) | PageButton(page: int, active: bool) | Gap(at: int) | Next(disabled: bool)

  /** Page `i` gets a button: the first, the last, and the current one's neighbours. */
  predicate Shown(i: int, current: int, total: int) {
    i == 1 || i == total || (current - 1 <= i <= current + 1)
  }

  /** What the loop emits for page `i`. */
  function ItemFor(i: int, current: int, total: int): (r: seq<PageItem>)
    ensures |r| <= 1
  {
    if Shown(i, current, total) then [PageButton(i, i == current)]
    else if i == current - 2 || i == current + 2 then [Gap(i)]
    else []
  }

  /** What the loop has emitted after pages 1 to `n`. */
  function ItemsUpTo(n: int, current: int, total: int): seq<PageItem>
    decreases n
  {
    if n < 1 then [] else ItemsUpTo(n - 1, current, total) + ItemFor(n, current, total)
  }

  /** The whole pager: nothing for a single page (or none), otherwise the arrows around
      the page items; an arrow is disabled on the first / last page. */
  function Pagination(current: int, total: int): seq<PageItem> {
    if total <= 1 then []
    else [Prev(current == 1)] + ItemsUpTo(total, current, total) + [Next(current == total)]
  }

  /** Every item emitted up to `n` comes from one of the pages 1 to `n`. */
  lemma {:induction false} ItemsUpToMembers(n: int, current: int, total: int, x: PageItem)
    ensures x in ItemsUpTo(n, current, total) <==> exists i :: 1 <= i <= n && x in ItemFor(i, current, total)
    decreases n
  {
    if n >= 1 {
      ItemsUpToMembers(n - 1, current, total, x);
      if x in ItemFor(n, current, total) {
        assert x in ItemsUpTo(n, current, total);
      }
    }
  }

  /** Page `i` has a button iff the window shows it; only the current page's is active. */
  lemma PaginationButtons(current: int, total: int, i: int, active: bool)
    ensures PageButton(i, active) in Pagination(current, total) <==>
      total > 1 && 1 <= i <= total && Shown(i, current, total) && active == (i == current)
  {
    var x := PageButton(i, active);
    ItemsUpToMembers(total, current, total, x);
    if total > 1 && 1 <= i <= total && Shown(i, current, total) && active == (i == current) {
      assert x in ItemFor(i, current, total);
    }
  }

  /** A `...` stands for page `i` iff it lies two pages from the current one and has no
      button. */
  lemma PaginationGaps(current: int, total: int, i: int)
    ensures Gap(i) in Pagination(current, total) <==>
      total > 1 && 1 <= i <= total && !Shown(i, current, total) && (i == current - 2 || i == current + 2)
  {
    ItemsUpToMembers(total, current, total, Gap(i));
    if total > 1 && 1 <= i <= total && !Shown(i, current, total) && (i == current - 2 || i == current + 2) {
      assert Gap(i) in ItemFor(i, current, total);
    }
  }

  /** The arrows frame the pager; Previous is disabled iff on the first page, Next iff
      on the last. */
  lemma PaginationArrows(current: int, total: int)
    ensures Pagination(current, total) == [] <==> total <= 1
    ensures total > 1 ==> Pagination(current, total)[0] == Prev(current == 1)
    ensures total > 1 ==> Pagination(current, total)[|Pagination(current, total)| - 1] == Next(current == total)
  {
  }

  // ----- status labels and icons -----

  /** `word.charAt(0).toUpperCase() + word.slice(1)`. */
  function Capitalize(w: string): string {
    if w == [] then [] else [UpperChar(w[0])] + w[1..]
  }

  function CapitalizeAll(parts: seq<string>): seq<string> {
    seq(|parts|, k requires 0 <= k < |parts| => Capitalize(parts[k]))
  }

  /** Capitalising a list is capitalising its head and then its tail. */
  lemma CapitalizeAllCons(w: string, ws: seq<string>)
    ensures CapitalizeAll([w] + ws) == [Capitalize(w)] + CapitalizeAll(ws)
  {
    var l := CapitalizeAll([w] + ws);
    var r := [Capitalize(w)] + CapitalizeAll(ws);
    assert |l| == |r|;
    forall k | 0 <= k < |l| ensures l[k] == r[k] {
      if k > 0 { assert ([w] + ws)[k] == ws[k - 1]; }
    }
  }

  /** `status.split('-').map(capitalise).join(' ')`. */
  function FormatStatus(status: string): string {
    Join(CapitalizeAll(Split(status, '-')), ' ')
  }

  /** Character `k` of the label: a hyphen becomes a space, the first letter of the
      text (when `start`) and every letter after a hyphen is upper-cased, and every
      other character is kept. */
  function LabelChar(s: string, k: nat, start: bool): char
    requires k < |s|
  {
    if s[k] == '-' then ' '
    else if (k == 0 && start) || (k > 0 && s[k - 1] == '-') then UpperChar(s[k])
    else s[k]
  }

  /** The label, built from left to right; `start` says whether the next character
      begins a word. */
  function Label(s: string, start: bool): (r: string)
    ensures |r| == |s|
    ensures forall k :: 0 <= k < |s| ==> r[k] == LabelChar(s, k, start)
  {
    if s == [] then []
    else
      var rest := Label(s[1..], s[0] == '-');
      var r := [LabelChar(s, 0, start)] + rest;
      assert forall k :: 1 <= k < |s| ==>
        r[k] == rest[k - 1] == LabelChar(s[1..], k - 1, s[0] == '-') == LabelChar(s, k, start);
      r
  }

  /** The pieces with every piece but the first capitalised: what is left of a word
      whose first letter was already written. */
  function CapitalizeRest(parts: seq<string>): (r: seq<string>)
    requires |parts| >= 1
    ensures |r| == |parts|
  {
    [parts[0]] + CapitalizeAll(parts[1..])
  }

  lemma LabelCons(s: string, start: bool)
    requires s != []
    ensures Label(s, start) == [LabelChar(s, 0, start)] + Label(s[1..], s[0] == '-')
  {
  }

  /** Split, capitalise and join spell out the label. */
  lemma {:induction false} FormatStatusIsLabel(s: string)
    ensures FormatStatus(s) == Label(s, true)
    ensures Join(CapitalizeRest(Split(s, '-')), ' ') == Label(s, false)
  {
    var parts := Split(s, '-');
    if s == [] {
      assert parts == [""];
      assert CapitalizeAll(parts) == [""];
      assert CapitalizeRest(parts) == [""];
    } else {
      FormatStatusIsLabel(s[1..]);
      LabelCons(s, true);
      LabelCons(s, false);
      if s[0] == '-' {
        HyphenStep(s);
      } else {
        LetterStep(s);
      }
    }
  }

  /** A leading hyphen ends an empty first piece and becomes a space. */
  lemma HyphenStep(s: string)
    requires s != [] && s[0] == '-'
    ensures Join(CapitalizeAll(Split(s, '-')), ' ') == [' '] + Join(CapitalizeAll(Split(s[1..], '-')), ' ')
    ensures Join(CapitalizeRest(Split(s, '-')), ' ') == [' '] + Join(CapitalizeAll(Split(s[1..], '-')), ' ')
  {
    var rest := Split(s[1..], '-');
    var parts := Split(s, '-');
    assert parts == [""] + rest;
    var caps := CapitalizeAll(rest);
    CapitalizeAllCons("", rest);
    assert CapitalizeAll(parts) == [""] + caps;
    assert CapitalizeRest(parts) == [""] + caps;
    assert ([""] + caps)[1..] == caps;
  }

  /** A leading letter opens the first piece: upper-cased when the piece is
      capitalised, kept otherwise. */
  lemma LetterStep(s: string)
    requires s != [] && s[0] != '-'
    ensures Join(CapitalizeAll(Split(s, '-')), ' ') == [UpperChar(s[0])] + Join(CapitalizeRest(Split(s[1..], '-')), ' ')
    ensures Join(CapitalizeRest(Split(s, '-')), ' ') == [s[0]] + Join(CapitalizeRest(Split(s[1..], '-')), ' ')
  {
    var rest := Split(s[1..], '-');
    var parts := Split(s, '-');
    var tail := CapitalizeAll(rest[1..]);
    assert parts == [[s[0]] + rest[0]] + rest[1..];
    assert parts[1..] == rest[1..];
    CapitalizeAllCons([s[0]] + rest[0], rest[1..]);
    assert Capitalize([s[0]] + rest[0]) == [UpperChar(s[0])] + rest[0];
    assert CapitalizeAll(parts) == [[UpperChar(s[0])] + rest[0]] + tail;
    assert CapitalizeRest(parts) == [[s[0]] + rest[0]] + tail;
    assert CapitalizeRest(rest) == [rest[0]] + tail;
    JoinHead([UpperChar(s[0])], rest[0], tail);
    JoinHead([s[0]], rest[0], tail);
  }

  /** Characters put in front of the first piece come out in front of the join. */
  lemma JoinHead(a: string, x: string, t: seq<string>)
    ensures Join([a + x] + t, ' ') == a + Join([x] + t, ' ')
  {
    if t != [] {
      assert ([a + x] + t)[1..] == t && ([x] + t)[1..] == t;
    }
  }

  /** The labels of the three statuses. */
  lemma PendingLabel()
    ensures FormatStatus("pending") == "Pending"
  {
    var s := "pending";
    assert LabelChar(s, 0, true) == 'P';
    LabelOf(s, "Pending");
  }

  lemma InProgressLabel()
    ensures FormatStatus("in-progress") == "In Progress"
  {
    var s := "in-progress";
    assert LabelChar(s, 0, true) == 'I';
    assert LabelChar(s, 2, true) == ' ';
    assert LabelChar(s, 3, true) == 'P';
    LabelOf(s, "In Progress");
  }

  lemma CompletedLabel()
    ensures FormatStatus("completed") == "Completed"
  {
    var s := "completed";
    assert LabelChar(s, 0, true) == 'C';
    LabelOf(s, "Completed");
  }

  /** `FormatStatus(s)` is `t` when `t` is `s` labelled character by character. */
  lemma LabelOf(s: string, t: string)
    requires |s| == |t| && forall k :: 0 <= k < |s| ==> t[k] == LabelChar(s, k, true)
    ensures FormatStatus(s) == t
  {
    FormatStatusIsLabel(s);
  }

  /** `getStatusIcon`: the icon table, `circle` for anything else. */
  function StatusIcon(status: string): (r: string)
    ensures status == "pending" <==> r == "clock"
    ensures status == "in-progress" <==> r == "spinner"
    ensures status == "completed" <==> r == "check-circle"
    ensures status !in StatusNames <==> r == "circle"
  {
    if status == "pending" then "clock"
    else if status == "in-progress" then "spinner"
    else if status == "completed" then "check-circle"
    else "circle"
  }

  /** The sidebar entries that have a heading of their own. */
  const SidebarFilters: seq<string> := ["all", "pending", "in-progress", "completed", "high"]

  /** The page heading for a sidebar entry, `Tasks` for any other. */
  function PageTitle(filter: string): (r: string)
    ensures r == "Tasks" <==> filter !in SidebarFilters
  {
    if filter == "all" then "All Tasks"
    else if filter == "pending" then "Pending Tasks"
    else if filter == "in-progress" then "In Progress"
    else if filter == "completed" then "Completed Tasks"
    else if filter == "high" then "High Priority"
    else "Tasks"
  }

  /** Different sidebar entries have different headings. */
  lemma PageTitlesDistinct(a: string, b: string)
    requires a in SidebarFilters && b in SidebarFilters && a != b
    ensures PageTitle(a) != PageTitle(b)
  {
  }

  lemma PrefixOfConcat(p: string, q: string)
    ensures IsPrefix(p, p + q)
  {
    assert (p + q)[..|p|] == p;
  }

  /** The heading of a status entry begins with the label the task cards show for that
      status. */
  lemma StatusTitleShowsLabel(s: string)
    requires s in StatusNames
    ensures IsPrefix(FormatStatus(s), PageTitle(s))
  {
    if s == "pending" {
      PendingLabel();
      PrefixOfConcat("Pending", " Tasks");
    } else if s == "in-progress" {
      InProgressLabel();
      PrefixOfConcat("In Progress", "");
    } else {
      CompletedLabel();
      PrefixOfConcat("Completed", " Tasks");
    }
  }

  // ----- the state object -----

  class ClientState {
    var currentFilter: string
    var currentPage: int
    var totalPages: int
    var searchQuery: string
    var filterStatus: string
    var filterPriority: string
    var sortBy: string
    var sortOrder: string

    /** The page the client is on is never below 1. It is not tied to `totalPages`:
        `changePage` only moves within 1..`totalPages`, but a new listing may report
        fewer pages than the current one, and the source keeps the page as it is. */
    ghost predicate Valid()
      reads this
    {
      currentPage >= 1
    }

    /** The initial state: every task, page 1 of 1, no filters, newest first. */
    constructor ()
      ensures Valid()
      ensures currentFilter == "all" && currentPage == 1 && totalPages == 1
      ensures searchQuery == "" && filterStatus == "" && filterPriority == ""
      ensures sortBy == "created_at" && sortOrder == "desc"
    {
      currentFilter := "all";
      currentPage := 1;
      totalPages := 1;
      searchQuery := "";
      filterStatus := "";
      filterPriority := "";
      sortBy := "created_at";
      sortOrder := "desc";
    }

    /** A sidebar entry: back to page 1; `all` clears both dropdowns, `high` sets the
        priority dropdown, any other entry sets the status dropdown. */
    method SetFilter(f: string)
      requires Valid()
      modifies this
      ensures Valid()
      ensures currentFilter == f && currentPage == 1
      ensures f == "all" ==> filterStatus == "" && filterPriority == ""
      ensures f == "high" ==> filterPriority == "high" && filterStatus == old(filterStatus)
      ensures f != "all" && f != "high" ==> filterStatus == f && filterPriority == old(filterPriority)
      ensures totalPages == old(totalPages) && searchQuery == old(searchQuery)
      ensures sortBy == old(sortBy) && sortOrder == old(sortOrder)
    {
      currentFilter := f;
      currentPage := 1;
      if f != "all" && f != "high" {
        filterStatus := f;
      } else if f == "high" {
        filterPriority := "high";
      } else {
        filterStatus := "";
        filterPriority := "";
      }
    }

    /** The pager: a page outside 1..totalPages is ignored. */
    method ChangePage(p: int)
      requires Valid()
      modifies this
      ensures Valid()
      ensures p < 1 || p > old(totalPages) ==> unchanged(this)
      ensures 1 <= p <= old(totalPages) ==> currentPage == p
      ensures currentFilter == old(currentFilter) && totalPages == old(totalPages)
      ensures searchQuery == old(searchQuery) && filterStatus == old(filterStatus)
      ensures filterPriority == old(filterPriority) && sortBy == old(sortBy) && sortOrder == old(sortOrder)
    {
      if p < 1 || p > totalPages {
        return;
      }
      currentPage := p;
    }

    /** The status dropdown: back to page 1. */
    method OnStatusChange(v: string)
      requires Valid()
      modifies this
      ensures Valid() && filterStatus == v && currentPage == 1
      ensures currentFilter == old(currentFilter) && totalPages == old(totalPages)
      ensures searchQuery == old(searchQuery) && filterPriority == old(filterPriority)
      ensures sortBy == old(sortBy) && sortOrder == old(sortOrder)
    {
      filterStatus := v;
      currentPage := 1;
    }

    /** The priority dropdown: back to page 1. */
    method OnPriorityChange(v: string)
      requires Valid()
      modifies this
      ensures Valid() && filterPriority == v && currentPage == 1
      ensures currentFilter == old(currentFilter) && totalPages == old(totalPages)
      ensures searchQuery == old(searchQuery) && filterStatus == old(filterStatus)
      ensures sortBy == old(sortBy) && sortOrder == old(sortOrder)
    {
      filterPriority := v;
      currentPage := 1;
    }

    /** The sort dropdown: the page is kept. */
    method OnSortByChange(v: string)
      requires Valid()
      modifies this
      ensures Valid() && sortBy == v && currentPage == old(currentPage)
      ensures currentFilter == old(currentFilter) && totalPages == old(totalPages)
      ensures searchQuery == old(searchQuery) && filterStatus == old(filterStatus)
      ensures filterPriority == old(filterPriority) && sortOrder == old(sortOrder)
    {
      sortBy := v;
    }

    /** The (debounced) search box: back to page 1. */
    method OnSearchInput(v: string)
      requires Valid()
      modifies this
      ensures Valid() && searchQuery == v && currentPage == 1
      ensures currentFilter == old(currentFilter) && totalPages == old(totalPages)
      ensures filterStatus == old(filterStatus) && filterPriority == old(filterPriority)
      ensures sortBy == old(sortBy) && sortOrder == old(sortOrder)
    {
      searchQuery := v;
      currentPage := 1;
    }

    /** The request `loadTasks` sends; its page and limit always meet the list
        route's precondition. */
    method LoadTasks() returns (q: ListQuery)
      requires Valid()
      ensures q == ListRequest(currentFilter, currentPage, filterStatus, filterPriority, searchQuery, sortBy, sortOrder)
      ensures q.page >= 1 && q.limit >= 1
    {
      q := ListRequest(currentFilter, currentPage, filterStatus, filterPriority, searchQuery, sortBy, sortOrder);
    }

    /** A successful listing response: the page count is taken from it. */
    method ReceivePageCount(pages: int)
      requires Valid()
      modifies this
      ensures Valid() && totalPages == pages
      ensures currentFilter == old(currentFilter) && currentPage == old(currentPage)
      ensures searchQuery == old(searchQuery) && filterStatus == old(filterStatus)
      ensures filterPriority == old(filterPriority) && sortBy == old(sortBy) && sortOrder == old(sortOrder)
    {
      totalPages := pages;
    }

    /** `renderPagination`: the items the loop appends, from page 1 to the last. */
    method RenderPagination() returns (items: seq<PageItem>)
      ensures items == Pagination(currentPage, totalPages)
    {
      if totalPages <= 1 {
        return [];
      }
      items := [Prev(currentPage == 1)];
      var i := 1;
      while i <= totalPages
        invariant 1 <= i <= totalPages + 1
        invariant items == [Prev(currentPage == 1)] + ItemsUpTo(i - 1, currentPage, totalPages)
      {
        if i == 1 || i == totalPages || (i >= currentPage - 1 && i <= currentPage + 1) {
          items := items + [PageButton(i, i == currentPage)];
        } else if i == currentPage - 2 || i == currentPage + 2 {
          items := items + [Gap(i)];
        }
        i := i + 1;
      }
      items := items + [Next(currentPage == totalPages)];
    }
  }
}
