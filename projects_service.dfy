/** `ProjectsService`: the project registry of an organization. Codes are
    unique within an organization, the list shows active projects only, a
    removal is a soft delete through the `active` flag, and the summary adds
    up a project's time, expenses and tasks. */
module ProjectsService {
  import opened Wrappers
  import opened Seqs
  import opened Sorting
  import opened Store
  import opened ProjectDto
  import opened Grouping
  import TimesheetsService

  // ---------------------------------------------------------------- codes

  /** Some project of the organization, active or not, has the code. */
  predicate CodeTaken(projects: seq<Project>, org: Id, code: string) {
    exists i :: 0 <= i < |projects| && projects[i].organizationId == org && projects[i].code == code
  }

  /** Some project of the organization other than `id` has the code. */
  predicate CodeTakenByOther(projects: seq<Project>, org: Id, code: string, id: Id) {
    exists i :: 0 <= i < |projects| && projects[i].organizationId == org && projects[i].code == code
                && projects[i].id != id
  }

  /** Within an organization no two projects share a code. */
  predicate UniqueCodes(projects: seq<Project>) {
    forall i, j :: 0 <= i < j < |projects| && projects[i].organizationId == projects[j].organizationId ==>
      projects[i].code != projects[j].code
  }

  /** `project.findFirst({ where: { organizationId, code } })`. */
  function ProjectWithCode(s: Store, org: Id, code: string): (r: Option<Project>)
    ensures r.Some? <==> CodeTaken(s.projects, org, code)
  {
    var r := Find(s.projects, (p: Project) => p.organizationId == org && p.code == code);
    r
  }

  /** `project.findFirst({ where: { organizationId, code, NOT: { id } } })`. */
  function OtherProjectWithCode(s: Store, org: Id, code: string, id: Id): (r: Option<Project>)
    ensures r.Some? <==> CodeTakenByOther(s.projects, org, code, id)
  {
    var r := Find(s.projects, (p: Project) => p.organizationId == org && p.code == code && p.id != id);
    r
  }

  // ---------------------------------------------------------------- create

  /** `create`. A code already used in the organization, by an active or a
      soft-deleted project, is a Conflict; a given client must be one of the
      organization's (NotFound). The new project is active, carries the
      caller's organization and gets PLANNED when no status is given; `newId`
      and `now` are the id and creation time the database assigns. */
  function Create(s: Store, org: Id, d: CreateProjectDto, newId: Id, now: int): (r: Result<(Store, Project)>)
    requires ValidCreateProject(d)
    ensures CodeTaken(s.projects, org, d.code) ==>
      r == Err(Conflict("Project code already exists in this organization"))
    ensures !CodeTaken(s.projects, org, d.code) && Given(d.clientId) && ClientIn(s, org, d.clientId.value).None? ==>
      r == Err(NotFound("Client not found"))
    ensures r.Ok? <==>
      !CodeTaken(s.projects, org, d.code) && (Given(d.clientId) ==> ClientIn(s, org, d.clientId.value).Some?)
    ensures r.Ok? ==>
      var (s', p) := r.value;
      && s' == s.(projects := s.projects + [p])
      && p.id == newId && p.organizationId == org && p.name == d.name && p.code == d.code
      && p.description == d.description && p.clientId == d.clientId
      && p.status == ProjectStatusName(CreatedProjectStatus(d))
      && p.budgetHours == d.budgetHours && p.budgetAmount == d.budgetAmount && p.hourlyRate == d.hourlyRate
      && p.startDate == d.startDate && p.endDate == d.endDate && p.color == d.color
      && p.active && p.createdAt == now
  {
    if ProjectWithCode(s, org, d.code).Some? then
      Err(Conflict("Project code already exists in this organization"))
    else if Given(d.clientId) && ClientIn(s, org, d.clientId.value).None? then
      Err(NotFound("Client not found"))
    else
      var p := Project(newId, org, d.name, d.code, d.description, d.clientId,
                       ProjectStatusName(CreatedProjectStatus(d)), d.budgetHours, d.budgetAmount,
                       d.hourlyRate, d.startDate, d.endDate, d.color, true, now);
      Ok((s.(projects := s.projects + [p]), p))
  }

  /** A successful create keeps the codes of every organization unique. */
  lemma CreateKeepsCodesUnique(s: Store, org: Id, d: CreateProjectDto, newId: Id, now: int)
    requires ValidCreateProject(d)
    requires UniqueCodes(s.projects)
    requires Create(s, org, d, newId, now).Ok?
    ensures UniqueCodes(Create(s, org, d, newId, now).value.0.projects)
  {
    var ps := Create(s, org, d, newId, now).value.0.projects;
    forall i, j | 0 <= i < j < |ps| && ps[i].organizationId == ps[j].organizationId
      ensures ps[i].code != ps[j].code
    {
      if j == |s.projects| {
        assert ps[i] == s.projects[i];
      }
    }
  }

  // ---------------------------------------------------------------- update

  /** The uniqueness check of `update` runs only for a code that is given,
      non-empty and different from the project's own. */
  predicate CodeChanges(d: UpdateProjectDto, p: Project) {
    Given(d.code) && d.code.value != p.code
  }

  /** A nullable column under an update: a given value replaces it, an absent
      one (`undefined`) keeps it. */
  function Patch<T>(given: Option<T>, stored: Option<T>): Option<T> {
    if given.Some? then given else stored
  }

  /** The fields an update writes: every given field replaces the stored one and
      every absent field is kept. */
  function PatchedProject(p: Project, d: UpdateProjectDto): (u: Project)
    ensures u.id == p.id && u.organizationId == p.organizationId && u.active == p.active && u.createdAt == p.createdAt
    ensures u.code == d.code.GetOr(p.code) && u.name == d.name.GetOr(p.name)
    ensures u.status == d.status.GetOr(p.status)
    ensures d.clientId.Some? ==> u.clientId == d.clientId
    ensures d.clientId.None? ==> u.clientId == p.clientId
    ensures u.description == (if d.description.Some? then d.description else p.description)
    ensures u.budgetHours == (if d.budgetHours.Some? then d.budgetHours else p.budgetHours)
    ensures u.budgetAmount == (if d.budgetAmount.Some? then d.budgetAmount else p.budgetAmount)
    ensures u.hourlyRate == (if d.hourlyRate.Some? then d.hourlyRate else p.hourlyRate)
    ensures u.startDate == (if d.startDate.Some? then d.startDate else p.startDate)
    ensures u.endDate == (if d.endDate.Some? then d.endDate else p.endDate)
    ensures u.color == (if d.color.Some? then d.color else p.color)
  {
    p.(name := d.name.GetOr(p.name),
       code := d.code.GetOr(p.code),
       description := Patch(d.description, p.description),
       clientId := Patch(d.clientId, p.clientId),
       status := d.status.GetOr(p.status),
       budgetHours := Patch(d.budgetHours, p.budgetHours),
       budgetAmount := Patch(d.budgetAmount, p.budgetAmount),
       hourlyRate := Patch(d.hourlyRate, p.hourlyRate),
       startDate := Patch(d.startDate, p.startDate),
       endDate := Patch(d.endDate, p.endDate),
       color := Patch(d.color, p.color))
  }

  /** An update that gives no field writes nothing. */
  lemma EmptyPatchKeepsProject(p: Project)
    ensures PatchedProject(p, UpdateProjectDto(None, None, None, None, None, None, None, None, None, None, None)) == p
  {
  }

  /** `update`. A project outside the organization is NotFound; a changed code
      that another project of the organization already has is a Conflict; a
      given client must be the organization's (NotFound); otherwise the given
      fields are written. */
  function Update(s: Store, org: Id, id: Id, d: UpdateProjectDto): (r: Result<(Store, Project)>)
    requires ValidUpdateProject(d)
    ensures ProjectIn(s, org, id).None? ==> r == Err(NotFound("Project not found"))
    ensures ProjectIn(s, org, id).Some? && CodeChanges(d, ProjectIn(s, org, id).value)
            && CodeTakenByOther(s.projects, org, d.code.value, id) ==>
      r == Err(Conflict("Project code already exists in this organization"))
    ensures ProjectIn(s, org, id).Some?
            && !(CodeChanges(d, ProjectIn(s, org, id).value) && CodeTakenByOther(s.projects, org, d.code.value, id))
            && Given(d.clientId) && ClientIn(s, org, d.clientId.value).None? ==>
      r == Err(NotFound("Client not found"))
    ensures r.Ok? <==>
      && ProjectIn(s, org, id).Some?
      && !(CodeChanges(d, ProjectIn(s, org, id).value) && CodeTakenByOther(s.projects, org, d.code.value, id))
      && (Given(d.clientId) ==> ClientIn(s, org, d.clientId.value).Some?)
    ensures r.Ok? ==>
      var (s', u) := r.value;
      u == PatchedProject(ProjectIn(s, org, id).value, d) && s' == s.(projects := Replace(s.projects, IdOfProject, id, u))
  {
    var found := ProjectIn(s, org, id);
    if found.None? then Err(NotFound("Project not found"))
    else if CodeChanges(d, found.value) && OtherProjectWithCode(s, org, d.code.value, id).Some? then
      Err(Conflict("Project code already exists in this organization"))
    else if Given(d.clientId) && ClientIn(s, org, d.clientId.value).None? then
      Err(NotFound("Client not found"))
    else
      var u := PatchedProject(found.value, d);
      Ok((s.(projects := Replace(s.projects, IdOfProject, id, u)), u))
  }

  /** A successful update keeps the codes unique, unless it writes the empty
      code, which skips the check (see `EmptyCodeSkipsCheck`). */
  lemma UpdateKeepsCodesUnique(s: Store, org: Id, id: Id, d: UpdateProjectDto)
    requires ValidUpdateProject(d)
    requires UniqueCodes(s.projects) && UniqueProjectIds(s.projects)
    requires d.code != Some("")
    requires Update(s, org, id, d).Ok?
    ensures UniqueCodes(Update(s, org, id, d).value.0.projects)
  {
    var p := ProjectIn(s, org, id).value;
    var u := PatchedProject(p, d);
    var k :| 0 <= k < |s.projects| && s.projects[k] == p;
    if u.code != p.code {
      assert CodeChanges(d, p);
    }
    ReplaceKeepsCodesUnique(s.projects, k, u);
  }

  /** Rewriting the row at `k` (ids unique) with a row of the same organization
      whose code is its old one or no other project's keeps the codes unique. */
  lemma ReplaceKeepsCodesUnique(projects: seq<Project>, k: nat, u: Project)
    requires UniqueCodes(projects) && UniqueProjectIds(projects)
    requires k < |projects| && u.organizationId == projects[k].organizationId
    requires u.code != projects[k].code ==> !CodeTakenByOther(projects, u.organizationId, u.code, projects[k].id)
    ensures UniqueCodes(Replace(projects, IdOfProject, projects[k].id, u))
  {
    var id := projects[k].id;
    var ps := Replace(projects, IdOfProject, id, u);
    assert ps[k] == u;
    forall i | 0 <= i < |ps| && i != k ensures ps[i] == projects[i] && projects[i].id != id {
      assert IdOfProject(projects[i]) != id;
    }
    forall i, j | 0 <= i < j < |ps| && ps[i].organizationId == ps[j].organizationId
      ensures ps[i].code != ps[j].code
    {
      if i == k || j == k {
        var other := if i == k then j else i;
        assert ps[other] == projects[other] && projects[other].id != id;
      }
    }
  }

  /** An update to the empty code is not checked: with one project already
      holding the empty code, a second one can be given it too. */
  lemma EmptyCodeSkipsCheck()
    ensures var a := Project("a", "o", "A", "", None, None, "PLANNED", None, None, None, None, None, None, true, 0);
      var b := Project("b", "o", "B", "X", None, None, "PLANNED", None, None, None, None, None, None, true, 1);
      var s := Store([], [], [a, b], [], [], []);
      var d := UpdateProjectDto(None, Some(""), None, None, None, None, None, None, None, None, None);
      && UniqueCodes(s.projects)
      && Update(s, "o", "b", d).Ok?
      && !UniqueCodes(Update(s, "o", "b", d).value.0.projects)
  {
    var a := Project("a", "o", "A", "", None, None, "PLANNED", None, None, None, None, None, None, true, 0);
    var b := Project("b", "o", "B", "X", None, None, "PLANNED", None, None, None, None, None, None, true, 1);
    var s := Store([], [], [a, b], [], [], []);
    var d := UpdateProjectDto(None, Some(""), None, None, None, None, None, None, None, None, None);
    assert ProjectIn(s, "o", "b") == Some(b) by {
      assert s.projects[1..] == [b];
    }
    var ps := Update(s, "o", "b", d).value.0.projects;
    assert ps[0] == a && ps[1].code == "";
  }

  // ---------------------------------------------------------------- list

  /** The list endpoint's filters. */
  datatype ProjectFilter = ProjectFilter(search: Option<string>, status: Option<string>, clientId: Option<Id>)

  /** The `where` of `findAll`: active projects of the organization only.
      `contains(text, needle)` is the database's case-insensitive substring
      test, a parameter of the model. */
  predicate MatchesProject(p: Project, org: Id, f: ProjectFilter, contains: (string, string) -> bool) {
    && p.organizationId == org
    && p.active
    && (Given(f.search) ==>
          contains(p.name, f.search.value) || contains(p.code, f.search.value)
          || (p.description.Some? && contains(p.description.value, f.search.value)))
    && (Given(f.status) ==> p.status == f.status.value)
    && (Given(f.clientId) ==> p.clientId == f.clientId)
  }

  /** The projects page sends `search`, `status` and `clientId` as empty
      strings until the user picks one. Each is falsy, so the `where` drops
      it and the list holds every active project of the organization. */
  lemma EmptyFiltersMatchAll(s: Store, org: Id, contains: (string, string) -> bool)
    ensures ListedProjects(s, org, ProjectFilter(Some(""), Some(""), Some("")), contains)
            == Filter(s.projects, (p: Project) => p.organizationId == org && p.active)
  {
    FilterSame(s.projects, (p: Project) => MatchesProject(p, org, ProjectFilter(Some(""), Some(""), Some("")), contains),
               (p: Project) => p.organizationId == org && p.active);
  }

  /** `orderBy: { createdAt: 'desc' }`. */
  predicate NewerProjectFirst(a: Project, b: Project) {
    a.createdAt >= b.createdAt
  }

  lemma NewerProjectFirstTotalPreorder()
    ensures TotalPreorder(NewerProjectFirst)
  {
  }

  function ListedProjects(s: Store, org: Id, f: ProjectFilter, contains: (string, string) -> bool): seq<Project> {
    Filter(s.projects, (p: Project) => MatchesProject(p, org, f, contains))
  }

  /** `findAll`: a page of the matching projects, newest first, with the count
      of all matching projects and `Math.ceil(total / limit)` pages. */
  function FindAll(s: Store, org: Id, f: ProjectFilter, page: int, limit: int, contains: (string, string) -> bool): (r: Page<Project>)
    requires page >= 1 && limit >= 1
    ensures forall k :: 0 <= k < |r.items| ==> r.items[k] in s.projects && MatchesProject(r.items[k], org, f, contains)
    ensures forall k :: 0 <= k < |r.items| ==> r.items[k].active && r.items[k].organizationId == org
    ensures SortedBy(r.items, NewerProjectFirst)
    ensures |r.items| <= limit
    ensures ListedPage(r.items, ListedProjects(s, org, f, contains), NewerProjectFirst, page, limit)
    ensures r.total == |ListedProjects(s, org, f, contains)|
    ensures r.page == page && r.limit == limit
    ensures r.totalPages * limit >= r.total && (r.totalPages > 0 ==> (r.totalPages - 1) * limit < r.total)
  {
    var matching := ListedProjects(s, org, f, contains);
    NewerProjectFirstTotalPreorder();
    var items := OrderedPage(matching, NewerProjectFirst, page, limit);
    Page(items, |matching|, page, limit, TotalPages(|matching|, limit))
  }

  /** When all matches fit in one page, the first page lists every one of
      them; otherwise it lists the newest of them. */
  lemma FirstPageOfList(s: Store, org: Id, f: ProjectFilter, limit: int, contains: (string, string) -> bool)
    requires limit >= 1
    ensures var items := FindAll(s, org, f, 1, limit, contains).items;
      && (|ListedProjects(s, org, f, contains)| <= limit ==> multiset(items) == multiset(ListedProjects(s, org, f, contains)))
      && (forall x, k :: x in multiset(ListedProjects(s, org, f, contains)) - multiset(items) && 0 <= k < |items| ==>
            items[k].createdAt >= x.createdAt)
  {
    var items := FindAll(s, org, f, 1, limit, contains).items;
    if |ListedProjects(s, org, f, contains)| <= limit {
      PageAllRows(items, ListedProjects(s, org, f, contains), NewerProjectFirst, limit);
    }
    PageFront(items, ListedProjects(s, org, f, contains), NewerProjectFirst, limit);
  }

  // ---------------------------------------------------------------- find one

  /** `findOne`: the project with its ten newest tasks, its ten latest entries
      and expenses, and the number of each. */
  datatype ProjectDetail = ProjectDetail(
    project: Project,
    tasks: seq<Task>,
    entries: seq<Entry>,
    expenses: seq<Expense>,
    taskCount: nat,
    entryCount: nat,
    expenseCount: nat)

  predicate NewerTaskFirst(a: Task, b: Task) {
    a.createdAt >= b.createdAt
  }

  predicate LaterEntryFirst(a: Entry, b: Entry) {
    a.date >= b.date
  }

  predicate LaterExpenseFirst(a: Expense, b: Expense) {
    a.date >= b.date
  }

  /** The rows of the project's relations (selected by project, not by
      organization). */
  function TasksOnProject(s: Store, id: Id): (r: seq<Task>)
    ensures forall k :: 0 <= k < |r| ==> r[k] in s.tasks && r[k].projectId == id
  {
    Filter(s.tasks, (t: Task) => t.projectId == id)
  }

  function EntriesOnProject(s: Store, id: Id): (r: seq<Entry>)
    ensures forall k :: 0 <= k < |r| ==> r[k] in s.entries && r[k].projectId == id
  {
    Filter(s.entries, (e: Entry) => e.projectId == id)
  }

  function ExpensesOnProject(s: Store, id: Id): (r: seq<Expense>)
    ensures forall k :: 0 <= k < |r| ==> r[k] in s.expenses && r[k].projectId == id
  {
    Filter(s.expenses, (x: Expense) => x.projectId == id)
  }

  /** `orderBy` and `take: 10` on a relation: the first ten rows of an ordering
      of `rows`, so every row left out comes after every row kept, and all
      rows when there are at most ten. */
  function Latest<T(!new)>(rows: seq<T>, le: (T, T) -> bool): (r: seq<T>)
    requires TotalPreorder(le)
    ensures ListedPage(r, rows, le, 1, 10)
    ensures SortedBy(r, le) && |r| == (if |rows| < 10 then |rows| else 10)
    ensures |rows| <= 10 ==> multiset(r) == multiset(rows)
    ensures forall x, k :: x in multiset(rows) - multiset(r) && 0 <= k < |r| ==> le(r[k], x)
  {
    var r := OrderedPage(rows, le, 1, 10);
    PageFront(r, rows, le, 10);
    assert |rows| <= 10 ==> multiset(r) == multiset(rows) by {
      if |rows| <= 10 {
        PageAllRows(r, rows, le, 10);
      }
    }
    r
  }

  /** `findOne`: NotFound outside the organization, whether or not the project
      is active. */
  function FindOne(s: Store, org: Id, id: Id): (r: Result<ProjectDetail>)
    ensures r.Err? <==> ProjectIn(s, org, id).None?
    ensures r.Err? ==> r.error == NotFound("Project not found")
    ensures r.Ok? ==>
      && r.value.project == ProjectIn(s, org, id).value
      && r.value.taskCount == |TasksOnProject(s, id)|
      && r.value.entryCount == |EntriesOnProject(s, id)|
      && r.value.expenseCount == |ExpensesOnProject(s, id)|
      && ListedPage(r.value.tasks, TasksOnProject(s, id), NewerTaskFirst, 1, 10)
      && ListedPage(r.value.entries, EntriesOnProject(s, id), LaterEntryFirst, 1, 10)
      && ListedPage(r.value.expenses, ExpensesOnProject(s, id), LaterExpenseFirst, 1, 10)
  {
    var found := ProjectIn(s, org, id);
    if found.None? then Err(NotFound("Project not found"))
    else
      var ts, es, xs := TasksOnProject(s, id), EntriesOnProject(s, id), ExpensesOnProject(s, id);
      Ok(ProjectDetail(found.value, Latest(ts, NewerTaskFirst), Latest(es, LaterEntryFirst),
                       Latest(xs, LaterExpenseFirst), |ts|, |es|, |xs|))
  }

  // ---------------------------------------------------------------- remove

  /** `update({ where: { id }, data: { active: false } })` on the table. */
  function Deactivated(projects: seq<Project>, id: Id): (r: seq<Project>)
    ensures |r| == |projects|
    ensures forall i :: 0 <= i < |projects| ==> r[i] == if projects[i].id == id then projects[i].(active := false) else projects[i]
  {
    if projects == [] then []
    else
      var init := projects[..|projects| - 1];
      var last := projects[|projects| - 1];
      Deactivated(init, id) + [if last.id == id then last.(active := false) else last]
  }

  /** `remove`: NotFound outside the organization, otherwise a soft delete that
      clears `active` and changes nothing else. */
  function Remove(s: Store, org: Id, id: Id): (r: Result<Store>)
    ensures r.Err? <==> ProjectIn(s, org, id).None?
    ensures r.Err? ==> r.error == NotFound("Project not found")
    ensures r.Ok? ==> r.value == s.(projects := Deactivated(s.projects, id))
  {
    if ProjectIn(s, org, id).None? then Err(NotFound("Project not found"))
    else Ok(s.(projects := Deactivated(s.projects, id)))
  }

  /** After a removal the list never shows the project. */
  lemma RemoveHidesFromList(s: Store, org: Id, id: Id, f: ProjectFilter, page: int, limit: int, contains: (string, string) -> bool)
    requires page >= 1 && limit >= 1
    requires Remove(s, org, id).Ok?
    ensures var items := FindAll(Remove(s, org, id).value, org, f, page, limit, contains).items;
      forall k :: 0 <= k < |items| ==> items[k].id != id
  {
    var s' := Remove(s, org, id).value;
    var items := FindAll(s', org, f, page, limit, contains).items;
    forall j | 0 <= j < |items| ensures items[j].id != id {
      var n :| 0 <= n < |s'.projects| && s'.projects[n] == items[j];
    }
  }

  /** After a removal `findOne` still returns the project, unchanged but for
      `active`. */
  lemma RemoveKeepsRecord(s: Store, org: Id, id: Id)
    requires UniqueProjectIds(s.projects)
    requires Remove(s, org, id).Ok?
    ensures var s' := Remove(s, org, id).value;
      FindOne(s', org, id).Ok? && FindOne(s', org, id).value.project == ProjectIn(s, org, id).value.(active := false)
  {
    var s' := Remove(s, org, id).value;
    var p := ProjectIn(s, org, id).value;
    var k :| 0 <= k < |s.projects| && s.projects[k] == p;
    assert s'.projects[k] == p.(active := false);
    assert ProjectIn(s', org, id).Some?;
    var q := ProjectIn(s', org, id).value;
    var m :| 0 <= m < |s'.projects| && s'.projects[m] == q;
    assert s.projects[m].id == id;
    assert m == k;
  }

  /** A soft-deleted project keeps its code reserved: creating another project
      with that code in the organization is a Conflict. */
  lemma RemovedCodeStaysTaken(s: Store, org: Id, id: Id, d: CreateProjectDto, newId: Id, now: int)
    requires ValidCreateProject(d)
    requires Remove(s, org, id).Ok?
    requires d.code == ProjectIn(s, org, id).value.code
    ensures Create(Remove(s, org, id).value, org, d, newId, now) ==
      Err(Conflict("Project code already exists in this organization"))
  {
    var p := ProjectIn(s, org, id).value;
    var k :| 0 <= k < |s.projects| && s.projects[k] == p;
    assert Remove(s, org, id).value.projects[k].code == d.code;
  }

  /** Soft deletion changes no code, so it keeps them unique. */
  lemma RemoveKeepsCodesUnique(s: Store, org: Id, id: Id)
    requires UniqueCodes(s.projects)
    requires Remove(s, org, id).Ok?
    ensures UniqueCodes(Remove(s, org, id).value.projects)
  {
  }

  // ---------------------------------------------------------------- summary

  /** `timeTracking` of the summary; hours are not rounded here. */
  datatype TimeTracking = TimeTracking(
    totalHours: real,
    billableHours: real,
    budgetHours: Option<int>,
    remainingBudgetHours: Option<real>)

  /** `expenses` of the summary; amounts are not rounded here. */
  datatype ExpenseTotals = ExpenseTotals(
    totalExpenses: real,
    billableExpenses: real,
    budgetAmount: Option<real>,
    remainingBudget: Option<real>)

  datatype ProjectSummary = ProjectSummary(
    project: Project,
    timeTracking: TimeTracking,
    expenses: ExpenseTotals,
    tasks: map<string, nat>)

  function Max0(x: real): (r: real)
    ensures r >= 0.0 && r >= x && (r == 0.0 || r == x)
  {
    if x > 0.0 then x else 0.0
  }

  /** `budgetHours ? Math.max(0, budgetHours - totalHours) : null`: a budget of
      zero hours counts as no budget. */
  function RemainingHours(budgetHours: Option<int>, totalHours: real): (r: Option<real>)
    ensures r.None? <==> budgetHours.None? || budgetHours.value == 0
    ensures r.Some? ==> r.value >= 0.0 && r.value >= budgetHours.value as real - totalHours
    ensures r.Some? && totalHours <= budgetHours.value as real ==> r.value + totalHours == budgetHours.value as real
    ensures r.Some? && totalHours >= budgetHours.value as real ==> r.value == 0.0
  {
    if budgetHours.Some? && budgetHours.value != 0 then Some(Max0(budgetHours.value as real - totalHours)) else None
  }

  /** `budgetAmount ? Math.max(0, Number(budgetAmount) - totalExpenses) : null`;
      a stored decimal is an object, so an amount of zero still counts as a
      budget. */
  function RemainingBudget(budgetAmount: Option<real>, totalExpenses: real): (r: Option<real>)
    ensures r.None? <==> budgetAmount.None?
    ensures r.Some? ==> r.value >= 0.0 && r.value >= budgetAmount.value - totalExpenses
    ensures r.Some? && totalExpenses <= budgetAmount.value ==> r.value + totalExpenses == budgetAmount.value
    ensures r.Some? && totalExpenses >= budgetAmount.value ==> r.value == 0.0
  {
    if budgetAmount.Some? then Some(Max0(budgetAmount.value - totalExpenses)) else None
  }

  /** The organization's rows of the project, as the summary queries them. */
  function SummaryEntries(s: Store, org: Id, id: Id): seq<Entry> {
    Filter(s.entries, (e: Entry) => e.organizationId == org && e.projectId == id)
  }

  function SummaryExpenses(s: Store, org: Id, id: Id): seq<Expense> {
    Filter(s.expenses, (x: Expense) => x.organizationId == org && x.projectId == id)
  }

  function SummaryTasks(s: Store, org: Id, id: Id): seq<Task> {
    Filter(s.tasks, (t: Task) => t.organizationId == org && t.projectId == id)
  }

  /** `reduce((sum, expense) => sum + Number(expense.amount), 0)`. */
  function AmountTotal(xs: seq<Expense>): real {
    if xs == [] then 0.0 else AmountTotal(xs[..|xs| - 1]) + xs[|xs| - 1].amount
  }

  predicate IsBillableExpense(x: Expense) {
    x.billable
  }

  predicate IsNonBillableExpense(x: Expense) {
    !x.billable
  }

  /** The billable and the non-billable expenses add up to all expenses, so with
      amounts that are never negative the billable part is at most the total. */
  lemma ExpensesSplit(xs: seq<Expense>)
    ensures AmountTotal(Filter(xs, IsBillableExpense)) + AmountTotal(Filter(xs, IsNonBillableExpense)) == AmountTotal(xs)
    ensures (forall i :: 0 <= i < |xs| ==> xs[i].amount >= 0.0) ==>
      0.0 <= AmountTotal(Filter(xs, IsBillableExpense)) <= AmountTotal(xs)
  {
    SplitSum(xs);
    if forall i :: 0 <= i < |xs| ==> xs[i].amount >= 0.0 {
      FilteredNonNegative(xs, IsBillableExpense);
      FilteredNonNegative(xs, IsNonBillableExpense);
    }
  }

  lemma {:induction false} SplitSum(xs: seq<Expense>)
    ensures AmountTotal(Filter(xs, IsBillableExpense)) + AmountTotal(Filter(xs, IsNonBillableExpense)) == AmountTotal(xs)
  {
    if xs != [] {
      var init, x := xs[..|xs| - 1], xs[|xs| - 1];
      SplitSum(init);
      var b, n := Filter(init, IsBillableExpense), Filter(init, IsNonBillableExpense);
      if x.billable {
        assert Filter(xs, IsBillableExpense) == b + [x];
        assert (b + [x])[..|b + [x]| - 1] == b;
      } else {
        assert Filter(xs, IsNonBillableExpense) == n + [x];
        assert (n + [x])[..|n + [x]| - 1] == n;
      }
    }
  }

  /** The expenses a filter keeps have non-negative amounts when all do. */
  lemma FilteredNonNegative(xs: seq<Expense>, p: Expense -> bool)
    requires forall i :: 0 <= i < |xs| ==> xs[i].amount >= 0.0
    ensures AmountTotal(Filter(xs, p)) >= 0.0
  {
    var f := Filter(xs, p);
    forall k | 0 <= k < |f| ensures f[k].amount >= 0.0 {
      var i :| 0 <= i < |xs| && xs[i] == f[k];
    }
    AmountsNonNegative(f);
  }

  lemma {:induction false} AmountsNonNegative(xs: seq<Expense>)
    requires forall i :: 0 <= i < |xs| ==> xs[i].amount >= 0.0
    ensures AmountTotal(xs) >= 0.0
  {
    if xs != [] {
      AmountsNonNegative(xs[..|xs| - 1]);
    }
  }

  // -------------------------------------------------- per-status task counts

  function StatusKey(t: Task): string {
    t.status
  }

  function One(t: Task): nat {
    1
  }

  /** A row of `task.groupBy({ by: ['status'], _count: true })`. */
  datatype StatusGroup = StatusGroup(status: string, count: nat)

  /** The groups of the statuses `ks`: one row per status with its task count. */
  function StatusGroups(ts: seq<Task>, ks: seq<string>): (gs: seq<StatusGroup>)
    ensures |gs| == |ks|
    ensures forall j :: 0 <= j < |ks| ==> gs[j] == StatusGroup(ks[j], |Only(ts, StatusKey, ks[j])|)
  {
    if ks == [] then [] else [StatusGroup(ks[0], |Only(ts, StatusKey, ks[0])|)] + StatusGroups(ts, ks[1..])
  }

  /** The `groupBy` answer: one group per status present, in some order; the
      model lists them in order of first appearance. */
  function GroupByStatus(ts: seq<Task>): seq<StatusGroup> {
    StatusGroups(ts, KeysOf(ts, StatusKey))
  }

  /** What the `reduce` with `acc[item.status] = item._count` leaves after the
      groups `gs`: a later group of the same status overwrites an earlier one. */
  function Assigned(gs: seq<StatusGroup>): map<string, nat> {
    if gs == [] then map[]
    else Assigned(gs[..|gs| - 1])[gs[|gs| - 1].status := gs[|gs| - 1].count]
  }

  /** The `taskSummary` accumulation, one assignment per group. */
  method TaskSummary(gs: seq<StatusGroup>) returns (acc: map<string, nat>)
    ensures acc == Assigned(gs)
  {
    acc := map[];
    for i := 0 to |gs|
      invariant acc == Assigned(gs[..i])
    {
      assert gs[..i + 1][..i] == gs[..i];
      acc := acc[gs[i].status := gs[i].count];
    }
    assert gs[..|gs|] == gs;
  }

  /** A status is a key of the accumulated record exactly when some group has it,
      and with distinct statuses each key holds its own group's count. */
  lemma {:induction false} AssignedLookup(gs: seq<StatusGroup>, ks: seq<string>)
    requires |gs| == |ks| && Distinct(ks)
    requires forall j :: 0 <= j < |ks| ==> gs[j].status == ks[j]
    ensures forall k :: k in Assigned(gs) <==> k in ks
    ensures forall j :: 0 <= j < |ks| ==> Assigned(gs)[ks[j]] == gs[j].count
  {
    if gs != [] {
      var n := |gs| - 1;
      var ginit, kinit := gs[..n], ks[..n];
      assert Distinct(kinit);
      AssignedLookup(ginit, kinit);
      assert ks == kinit + [ks[n]];
      forall j | 0 <= j < n ensures ks[j] != ks[n] {
      }
    }
  }

  function TaskCount(m: map<string, nat>, ks: seq<string>): nat {
    if ks == [] then 0 else (if ks[0] in m then m[ks[0]] else 0) + TaskCount(m, ks[1..])
  }

  lemma {:induction false} TotalOne(ts: seq<Task>)
    ensures Total(ts, One) == |ts|
  {
    if ts != [] {
      TotalOne(ts[..|ts| - 1]);
    }
  }

  lemma {:induction false} TaskCountIsSumGroups(ts: seq<Task>, m: map<string, nat>, ks: seq<string>)
    requires forall j :: 0 <= j < |ks| ==> ks[j] in m && m[ks[j]] == |Only(ts, StatusKey, ks[j])|
    ensures TaskCount(m, ks) == SumGroups(ts, StatusKey, ks, One)
  {
    if ks != [] {
      TotalOne(Only(ts, StatusKey, ks[0]));
      TaskCountIsSumGroups(ts, m, ks[1..]);
    }
  }

  /** A status is a key of the summary's task record exactly when some task
      has it. */
  lemma TaskSummaryKeys(ts: seq<Task>)
    ensures forall k :: k in Assigned(GroupByStatus(ts)) <==> k in KeysOf(ts, StatusKey)
    ensures forall i :: 0 <= i < |ts| ==> ts[i].status in Assigned(GroupByStatus(ts))
  {
    var ks := KeysOf(ts, StatusKey);
    AssignedLookup(GroupByStatus(ts), ks);
    KeysOfCovers(ts, StatusKey);
    forall i | 0 <= i < |ts| ensures ts[i].status in ks {
      assert StatusKey(ts[i]) in ks;
    }
  }

  /** Each key of the record holds the number of tasks with that status, which
      is never zero: statuses without tasks are absent. */
  lemma TaskSummaryValues(ts: seq<Task>, k: string)
    requires k in Assigned(GroupByStatus(ts))
    ensures Assigned(GroupByStatus(ts))[k] == |Only(ts, StatusKey, k)| > 0
  {
    var ks := KeysOf(ts, StatusKey);
    AssignedLookup(GroupByStatus(ts), ks);
    var j :| 0 <= j < |ks| && ks[j] == k;
    KeysOfSound(ts, StatusKey, j);
    var i :| 0 <= i < |ts| && StatusKey(ts[i]) == k;
    InOnlyIff(ts, StatusKey, k, i);
  }

  /** The counts of the record add up to the number of tasks. */
  lemma TaskSummaryTotal(ts: seq<Task>)
    ensures TaskCount(Assigned(GroupByStatus(ts)), KeysOf(ts, StatusKey)) == |ts|
  {
    var ks := KeysOf(ts, StatusKey);
    var m := Assigned(GroupByStatus(ts));
    AssignedLookup(GroupByStatus(ts), ks);
    TaskCountIsSumGroups(ts, m, ks);
    KeysOfCovers(ts, StatusKey);
    GroupsPartitionTotal(ts, StatusKey, ks, One);
    TotalOne(ts);
  }

  /** `getSummary`: NotFound outside the organization; otherwise the hours and
      billable hours of the project's entries, the remaining hour budget, the
      expense totals and remaining amount, and the task count per status. */
  method GetSummary(s: Store, org: Id, id: Id) returns (r: Result<ProjectSummary>)
    ensures r.Err? <==> ProjectIn(s, org, id).None?
    ensures r.Err? ==> r.error == NotFound("Project not found")
    ensures r.Ok? ==>
      var p := ProjectIn(s, org, id).value;
      var es := SummaryEntries(s, org, id);
      var xs := SummaryExpenses(s, org, id);
      var totalHours := TimesheetsService.Hours(Total(es, TimesheetsService.EntryMinutes));
      && r.value.project == p
      && r.value.timeTracking == TimeTracking(
           totalHours, TimesheetsService.Hours(Total(es, TimesheetsService.BillableMinutes)),
           p.budgetHours, RemainingHours(p.budgetHours, totalHours))
      && r.value.expenses == ExpenseTotals(
           AmountTotal(xs), AmountTotal(Filter(xs, IsBillableExpense)),
           p.budgetAmount, RemainingBudget(p.budgetAmount, AmountTotal(xs)))
      && r.value.tasks == Assigned(GroupByStatus(SummaryTasks(s, org, id)))
  {
    var found := ProjectIn(s, org, id);
    if found.None? {
      return Err(NotFound("Project not found"));
    }
    var p := found.value;
    var es := SummaryEntries(s, org, id);
    var totalMinutes := Total(es, TimesheetsService.EntryMinutes);
    var billableMinutes := Total(Filter(es, TimesheetsService.IsBillable), TimesheetsService.EntryMinutes);
    TimesheetsService.BillableSum(es);
    var totalHours := TimesheetsService.Hours(totalMinutes);
    var xs := SummaryExpenses(s, org, id);
    var totalExpenses := AmountTotal(xs);
    var billableExpenses := AmountTotal(Filter(xs, IsBillableExpense));
    var counts := GroupByStatus(SummaryTasks(s, org, id));
    var tasks := TaskSummary(counts);
    r := Ok(ProjectSummary(
      p,
      TimeTracking(totalHours, TimesheetsService.Hours(billableMinutes), p.budgetHours,
                   RemainingHours(p.budgetHours, totalHours)),
      ExpenseTotals(totalExpenses, billableExpenses, p.budgetAmount,
                    RemainingBudget(p.budgetAmount, totalExpenses)),
      tasks));
  }

  /** Billable hours never exceed total hours. */
  lemma SummaryBillableBounded(es: seq<Entry>)
    ensures TimesheetsService.Hours(Total(es, TimesheetsService.BillableMinutes))
         <= TimesheetsService.Hours(Total(es, TimesheetsService.EntryMinutes))
  {
    TimesheetsService.BillableSum(es);
  }
}
