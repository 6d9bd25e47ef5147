/** The persistence layer as an in-memory store: one table of records per
    entity, each table a sequence of rows in storage order. Every query of the
    services names the caller's organization, so every lookup below takes it. */
module Store {
  import opened Wrappers
  import opened Seqs
  import opened Sorting

  type Id = string

  datatype User = User(id: Id, organizationId: Id)

  datatype Client = Client(id: Id, organizationId: Id)

  datatype Project = Project(
    id: Id,
    organizationId: Id,
    name: string,
    code: string,
    description: Option<string>,
    clientId: Option<Id>,
    status: string,
    budgetHours: Option<int>,
    budgetAmount: Option<real>,
    hourlyRate: Option<real>,
    startDate: Option<int>,
    endDate: Option<int>,
    color: Option<string>,
    active: bool,
    createdAt: int)

  /** A task; `status` and `priority` hold the column's raw string. */
  datatype Task = Task(
    id: Id,
    organizationId: Id,
    projectId: Id,
    parentId: Option<Id>,
    title: string,
    description: Option<string>,
    status: string,
    priority: string,
    tags: seq<string>,
    dueDate: Option<int>,
    estimatedHours: Option<int>,
    assignees: set<Id>,
    orderIndex: int,
    createdAt: int)

  /** A timesheet entry; `date` is an instant in milliseconds. */
  datatype Entry = Entry(
    id: Id,
    organizationId: Id,
    userId: Id,
    projectId: Id,
    taskId: Option<Id>,
    date: int,
    minutes: nat,
    billable: bool,
    hourlyRate: Option<real>,
    notes: Option<string>,
    createdAt: int)

  /** An expense; `amount` is the decimal column read as a number. */
  datatype Expense = Expense(id: Id, organizationId: Id, projectId: Id, date: int, amount: real, billable: bool)

  datatype Store = Store(
    users: seq<User>,
    clients: seq<Client>,
    projects: seq<Project>,
    tasks: seq<Task>,
    entries: seq<Entry>,
    expenses: seq<Expense>)

  /** Project ids are primary keys. */
  predicate UniqueProjectIds(projects: seq<Project>) {
    forall i, j :: 0 <= i < j < |projects| ==> projects[i].id != projects[j].id
  }

  predicate HasTaskId(s: Store, id: Id) {
    exists i :: 0 <= i < |s.tasks| && s.tasks[i].id == id
  }

  function IdOfTask(t: Task): Id { t.id }
  function IdOfProject(p: Project): Id { p.id }
  function IdOfEntry(e: Entry): Id { e.id }

  /** `delete({ where: { id } })` on a table: the rows with the id are gone,
      every other row stays, in its order, and no row is added. */
  function WithoutId<T>(rows: seq<T>, idOf: T -> Id, id: Id): (r: seq<T>)
    ensures forall k :: 0 <= k < |r| ==> idOf(r[k]) != id
    ensures forall i :: 0 <= i < |rows| && idOf(rows[i]) != id ==> rows[i] in r
    ensures multiset(r) <= multiset(rows)
  {
    FilterKeeps(rows, (x: T) => idOf(x) != id);
    Filter(rows, (x: T) => idOf(x) != id)
  }

  /** `update({ where: { id }, data })` on a table: the row with the id is
      rewritten to `u`, every other row is kept in place. */
  function Replace<T>(rows: seq<T>, idOf: T -> Id, id: Id, u: T): (r: seq<T>)
    ensures |r| == |rows|
    ensures forall i :: 0 <= i < |rows| ==> r[i] == if idOf(rows[i]) == id then u else rows[i]
  {
    seq(|rows|, i requires 0 <= i < |rows| => if idOf(rows[i]) == id then u else rows[i])
  }

  /** `project.findFirst({ where: { id, organizationId } })`. */
  function ProjectIn(s: Store, org: Id, id: Id): (r: Option<Project>)
    ensures r.Some? ==> r.value in s.projects && r.value.id == id && r.value.organizationId == org
    ensures r.None? ==> forall i :: 0 <= i < |s.projects| ==> !(s.projects[i].id == id && s.projects[i].organizationId == org)
  {
    Find(s.projects, (p: Project) => p.id == id && p.organizationId == org)
  }

  /** `task.findFirst({ where: { id, organizationId } })`. */
  function TaskIn(s: Store, org: Id, id: Id): (r: Option<Task>)
    ensures r.Some? ==> r.value in s.tasks && r.value.id == id && r.value.organizationId == org
    ensures r.None? ==> forall i :: 0 <= i < |s.tasks| ==> !(s.tasks[i].id == id && s.tasks[i].organizationId == org)
  {
    Find(s.tasks, (t: Task) => t.id == id && t.organizationId == org)
  }

  /** `task.findFirst({ where: { id, organizationId, projectId } })`. */
  function TaskInProject(s: Store, org: Id, id: Id, projectId: Id): (r: Option<Task>)
    ensures r.Some? ==> r.value in s.tasks && r.value.id == id && r.value.organizationId == org && r.value.projectId == projectId
    ensures r.None? ==> forall i :: 0 <= i < |s.tasks| ==>
      !(s.tasks[i].id == id && s.tasks[i].organizationId == org && s.tasks[i].projectId == projectId)
  {
    Find(s.tasks, (t: Task) => t.id == id && t.organizationId == org && t.projectId == projectId)
  }

  /** `client.findFirst({ where: { id, organizationId } })`. */
  function ClientIn(s: Store, org: Id, id: Id): (r: Option<Client>)
    ensures r.Some? ==> r.value in s.clients && r.value.id == id && r.value.organizationId == org
    ensures r.None? ==> forall i :: 0 <= i < |s.clients| ==> !(s.clients[i].id == id && s.clients[i].organizationId == org)
  {
    Find(s.clients, (c: Client) => c.id == id && c.organizationId == org)
  }

  /** `timesheetEntry.findFirst({ where: { id, organizationId } })`. */
  function EntryIn(s: Store, org: Id, id: Id): (r: Option<Entry>)
    ensures r.Some? ==> r.value in s.entries && r.value.id == id && r.value.organizationId == org
    ensures r.None? ==> forall i :: 0 <= i < |s.entries| ==> !(s.entries[i].id == id && s.entries[i].organizationId == org)
  {
    Find(s.entries, (e: Entry) => e.id == id && e.organizationId == org)
  }

  /** The ids among `ids` that are users of the organization: what
      `user.findMany({ where: { id: { in: ids }, organizationId } })` returns,
      one row per user. */
  function FoundUserIds(s: Store, org: Id, ids: seq<Id>): (r: set<Id>)
    ensures r <= set i | 0 <= i < |ids| :: ids[i]
  {
    set u | u in s.users && u.organizationId == org && u.id in ids :: u.id
  }

  predicate IsOrgUser(s: Store, org: Id, id: Id) {
    exists i :: 0 <= i < |s.users| && s.users[i].id == id && s.users[i].organizationId == org
  }

  /** The count check of `create` and `update` (`users.length !== ids.length`)
      passes exactly when every listed id is a user of the organization and no id
      is listed twice. */
  lemma UserCountCheck(s: Store, org: Id, ids: seq<Id>)
    ensures |FoundUserIds(s, org, ids)| == |ids| <==> (forall i :: 0 <= i < |ids| ==> IsOrgUser(s, org, ids[i])) && Distinct(ids)
  {
    var found := FoundUserIds(s, org, ids);
    CountCheck(ids, found);
    forall i | 0 <= i < |ids| ensures ids[i] in found <==> IsOrgUser(s, org, ids[i]) {
      if IsOrgUser(s, org, ids[i]) {
        var k :| 0 <= k < |s.users| && s.users[k].id == ids[i] && s.users[k].organizationId == org;
        assert s.users[k] in s.users;
      }
      if ids[i] in found {
        var u :| u in s.users && u.organizationId == org && u.id in ids && u.id == ids[i];
        var k :| 0 <= k < |s.users| && s.users[k] == u;
      }
    }
  }

  /** The ids among `ids` that are tasks of the organization
      (`task.findMany({ where: { id: { in: ids }, organizationId } })`). */
  function FoundTaskIds(s: Store, org: Id, ids: seq<Id>): (r: set<Id>)
    ensures r <= set i | 0 <= i < |ids| :: ids[i]
  {
    set t | t in s.tasks && t.organizationId == org && t.id in ids :: t.id
  }

  predicate IsOrgTask(s: Store, org: Id, id: Id) {
    exists i :: 0 <= i < |s.tasks| && s.tasks[i].id == id && s.tasks[i].organizationId == org
  }

  lemma TaskCountCheck(s: Store, org: Id, ids: seq<Id>)
    ensures |FoundTaskIds(s, org, ids)| == |ids| <==> (forall i :: 0 <= i < |ids| ==> IsOrgTask(s, org, ids[i])) && Distinct(ids)
  {
    var found := FoundTaskIds(s, org, ids);
    CountCheck(ids, found);
    forall i | 0 <= i < |ids| ensures ids[i] in found <==> IsOrgTask(s, org, ids[i]) {
      if IsOrgTask(s, org, ids[i]) {
        var k :| 0 <= k < |s.tasks| && s.tasks[k].id == ids[i] && s.tasks[k].organizationId == org;
        assert s.tasks[k] in s.tasks;
      }
      if ids[i] in found {
        var t :| t in s.tasks && t.organizationId == org && t.id in ids && t.id == ids[i];
        var k :| 0 <= k < |s.tasks| && s.tasks[k] == t;
      }
    }
  }

  /** Pagination: `Math.ceil(total / limit)`. */
  function TotalPages(total: nat, limit: nat): (r: nat)
    requires limit >= 1
    ensures r * limit >= total
    ensures r > 0 ==> (r - 1) * limit < total
  {
    (total + limit - 1) / limit
  }

  /** `skip: (page - 1) * limit, take: limit` over an ordered result. */
  function PageOf<T>(rows: seq<T>, page: int, limit: int): (r: seq<T>)
    requires page >= 1 && limit >= 1
    ensures |r| <= limit
    ensures forall k :: 0 <= k < |r| ==> (page - 1) * limit + k < |rows| && r[k] == rows[(page - 1) * limit + k]
    ensures (page - 1) * limit < |rows| ==> |r| == if |rows| - (page - 1) * limit < limit then |rows| - (page - 1) * limit else limit
  {
    Window(rows, (page - 1) * limit, limit)
  }

  /** The rows from offset `skip` on, at most `limit` of them. */
  function Window<T>(rows: seq<T>, skip: nat, limit: nat): (r: seq<T>)
    ensures |r| <= limit
    ensures forall k :: 0 <= k < |r| ==> skip + k < |rows| && r[k] == rows[skip + k]
    ensures skip < |rows| ==> |r| == if |rows| - skip < limit then |rows| - skip else limit
  {
    if skip >= |rows| then []
    else if skip + limit >= |rows| then rows[skip..]
    else rows[skip..skip + limit]
  }

  /** A page of a sorted list is sorted and holds rows of the list only. */
  lemma PageOfSorted<T>(rows: seq<T>, page: int, limit: int, le: (T, T) -> bool)
    requires page >= 1 && limit >= 1
    requires SortedBy(rows, le)
    ensures SortedBy(PageOf(rows, page, limit), le)
    ensures forall k :: 0 <= k < |PageOf(rows, page, limit)| ==> PageOf(rows, page, limit)[k] in rows
  {
    var r := PageOf(rows, page, limit);
    var skip := (page - 1) * limit;
    forall i, j | 0 <= i < j < |r| ensures le(r[i], r[j]) {
      assert r[i] == rows[skip + i] && r[j] == rows[skip + j];
    }
  }

  /** `items` is page `page` of the rows `rows` in `le` order: the slice that
      `skip`/`take` cut from an ordering of exactly those rows (rows that tie
      under `le` may come in any order). */
  ghost predicate ListedPage<T(!new)>(items: seq<T>, rows: seq<T>, le: (T, T) -> bool, page: int, limit: int)
    requires page >= 1 && limit >= 1
  {
    exists sorted :: SortedBy(sorted, le) && multiset(sorted) == multiset(rows) && items == PageOf(sorted, page, limit)
  }

  /** When the rows fit in one page, the first page holds all of them. */
  lemma PageAllRows<T(!new)>(items: seq<T>, rows: seq<T>, le: (T, T) -> bool, limit: int)
    requires limit >= 1 && |rows| <= limit
    requires ListedPage(items, rows, le, 1, limit)
    ensures multiset(items) == multiset(rows)
  {
    var sorted :| SortedBy(sorted, le) && multiset(sorted) == multiset(rows) && items == PageOf(sorted, 1, limit);
    assert |sorted| == |rows| by { assert |multiset(sorted)| == |multiset(rows)|; }
    assert items == sorted by {
      if sorted != [] { assert sorted[0..] == sorted; }
    }
  }

  /** A row the first page leaves out comes, in `le` order, after every row on
      it: the first page holds the front of the ordering. */
  lemma PageFront<T(!new)>(items: seq<T>, rows: seq<T>, le: (T, T) -> bool, limit: int)
    requires limit >= 1
    requires ListedPage(items, rows, le, 1, limit)
    ensures forall x, k :: x in multiset(rows) - multiset(items) && 0 <= k < |items| ==> le(items[k], x)
  {
    var sorted :| SortedBy(sorted, le) && multiset(sorted) == multiset(rows) && items == PageOf(sorted, 1, limit);
    var n := |items|;
    assert sorted == items + sorted[n..];
    forall x, k | x in multiset(rows) - multiset(items) && 0 <= k < n ensures le(items[k], x) {
      assert multiset(sorted) == multiset(items) + multiset(sorted[n..]);
      assert x in multiset(sorted[n..]);
      var j :| 0 <= j < |sorted[n..]| && sorted[n..][j] == x;
      assert sorted[k] == items[k] && sorted[n + j] == x;
    }
  }

  /** `orderBy` followed by `skip`/`take`: the page of `rows` ordered by `le`,
      sorted and drawn from `rows`. */
  function OrderedPage<T(!new)>(rows: seq<T>, le: (T, T) -> bool, page: int, limit: int): (r: seq<T>)
    requires TotalPreorder(le) && page >= 1 && limit >= 1
    ensures ListedPage(r, rows, le, page, limit)
    ensures SortedBy(r, le) && |r| <= limit
    ensures forall k :: 0 <= k < |r| ==> r[k] in rows
  {
    var sorted := Sort(rows, le);
    PageOfSorted(sorted, page, limit, le);
    var r := PageOf(sorted, page, limit);
    assert forall k :: 0 <= k < |r| ==> r[k] in rows by {
      forall k | 0 <= k < |r| ensures r[k] in rows {
        assert r[k] in multiset(sorted);
      }
    }
    r
  }

  /** Paged answer of the list endpoints. */
  datatype Page<T> = Page(items: seq<T>, total: nat, page: int, limit: int, totalPages: nat)
}
