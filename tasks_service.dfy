/** `TasksService`: guarded create, update and delete of tasks, trailing order
    indices per (project, status) lane, the filtered task list, the four-lane
    kanban board, and the all-or-nothing bulk reorder. */
module TasksService {
  import opened Wrappers
  import opened Seqs
  import opened Sorting
  import opened Store
  import opened TaskDto

  // ---------------------------------------------------------------- lanes

  /** A lane: the tasks sharing organization, project and status. */
  predicate InLane(t: Task, org: Id, projectId: Id, status: string) {
    t.organizationId == org && t.projectId == projectId && t.status == status
  }

  function LaneTasks(tasks: seq<Task>, org: Id, projectId: Id, status: string): seq<Task> {
    Filter(tasks, (t: Task) => InLane(t, org, projectId, status))
  }

  function MaxOrderIndex(lane: seq<Task>): (m: int)
    requires lane != []
    ensures forall i :: 0 <= i < |lane| ==> lane[i].orderIndex <= m
    ensures exists i :: 0 <= i < |lane| && lane[i].orderIndex == m
  {
    if |lane| == 1 then lane[0].orderIndex
    else
      var init := lane[..|lane| - 1];
      var m := MaxOrderIndex(init);
      assert forall i :: 0 <= i < |init| ==> init[i] == lane[i];
      var x := lane[|lane| - 1].orderIndex;
      if x > m then x else m
  }

  /** `lastTask ? lastTask.orderIndex + 1 : 0`, where `lastTask` has the largest
      order index of the lane: one past the lane's maximum, 0 for an empty lane. */
  function NextOrderIndex(tasks: seq<Task>, org: Id, projectId: Id, status: string): (r: int)
    ensures forall i :: 0 <= i < |tasks| && InLane(tasks[i], org, projectId, status) ==> tasks[i].orderIndex < r
    ensures (forall i :: 0 <= i < |tasks| ==> !InLane(tasks[i], org, projectId, status)) ==> r == 0
    ensures (exists i :: 0 <= i < |tasks| && InLane(tasks[i], org, projectId, status)) ==>
      exists i :: 0 <= i < |tasks| && InLane(tasks[i], org, projectId, status) && tasks[i].orderIndex == r - 1
  {
    var lane := LaneTasks(tasks, org, projectId, status);
    FilterKeeps(tasks, (t: Task) => InLane(t, org, projectId, status));
    if lane == [] then 0 else MaxOrderIndex(lane) + 1
  }

  // ---------------------------------------------------------------- create

  /** `connect`/`set: assigneeIds.map(id => ({ id }))`: exactly the listed users. */
  function AssigneeSet(ids: Option<seq<Id>>): (r: set<Id>)
    ensures forall u :: u in r <==> ids.Some? && u in ids.value
  {
    if ids.Some? then set i | 0 <= i < |ids.value| :: ids.value[i] else {}
  }

  /** `create`. The project must be one of the organization's; a given parent a
      task of the same organization and project; every given assignee a user of
      the organization, and, as the check counts rows, no assignee listed twice.
      Errors are tried in that order. `newId` is the fresh id the database
      assigns, `now` the creation time. */
  function Create(s: Store, org: Id, d: CreateTaskDto, newId: Id, now: int): (r: Result<(Store, Task)>)
    requires ValidCreateTask(d)
    ensures r.Ok? <==>
      && ProjectIn(s, org, d.projectId).Some?
      && (Given(d.parentId) ==> TaskInProject(s, org, d.parentId.value, d.projectId).Some?)
      && (d.assigneeIds.Some? ==>
            (forall i :: 0 <= i < |d.assigneeIds.value| ==> IsOrgUser(s, org, d.assigneeIds.value[i]))
            && Distinct(d.assigneeIds.value))
    ensures ProjectIn(s, org, d.projectId).None? ==> r == Err(NotFound("Project not found"))
    ensures ProjectIn(s, org, d.projectId).Some? && Given(d.parentId)
            && TaskInProject(s, org, d.parentId.value, d.projectId).None? ==>
      r == Err(NotFound("Parent task not found"))
    ensures r.Err? ==> r.error.NotFound?
    ensures r.Ok? ==>
      var (s', t) := r.value;
      && s' == s.(tasks := s.tasks + [t])
      && t.id == newId && t.organizationId == org && t.projectId == d.projectId
      && t.parentId == d.parentId && t.title == d.title && t.description == d.description
      && t.status == d.status.GetOr("TODO") && t.priority == d.priority.GetOr("MEDIUM")
      && t.tags == d.tags.GetOr([]) && t.dueDate == d.dueDate && t.estimatedHours == d.estimatedHours
      && (forall u :: u in t.assignees <==> d.assigneeIds.Some? && u in d.assigneeIds.value)
      && t.createdAt == now
      && t.orderIndex == (if d.orderIndex.Some? then d.orderIndex.value
                          else NextOrderIndex(s.tasks, org, d.projectId, t.status))
  {
    if ProjectIn(s, org, d.projectId).None? then Err(NotFound("Project not found"))
    else if Given(d.parentId) && TaskInProject(s, org, d.parentId.value, d.projectId).None? then
      Err(NotFound("Parent task not found"))
    else if d.assigneeIds.Some? && |d.assigneeIds.value| > 0
         && |FoundUserIds(s, org, d.assigneeIds.value)| != |d.assigneeIds.value| then
      UserCountCheck(s, org, d.assigneeIds.value);
      Err(NotFound("One or more assignees not found"))
    else
      assert d.assigneeIds.Some? ==>
        (forall i :: 0 <= i < |d.assigneeIds.value| ==> IsOrgUser(s, org, d.assigneeIds.value[i]))
        && Distinct(d.assigneeIds.value) by {
        if d.assigneeIds.Some? { UserCountCheck(s, org, d.assigneeIds.value); }
      }
      var status := StatusName(CreatedStatus(d));
      var orderIndex := if d.orderIndex.Some? then d.orderIndex.value else NextOrderIndex(s.tasks, org, d.projectId, status);
      var t := Task(newId, org, d.projectId, d.parentId, d.title, d.description, status,
                    PriorityName(CreatedPriority(d)), d.tags.GetOr([]), d.dueDate, d.estimatedHours,
                    AssigneeSet(d.assigneeIds), orderIndex, now);
      Ok((s.(tasks := s.tasks + [t]), t))
  }

  /** Appending a task to its lane at `NextOrderIndex` makes its index the
      lane's largest: the next index is one past it. */
  lemma NextAfterAppend(tasks: seq<Task>, t: Task, org: Id, projectId: Id, status: string)
    requires InLane(t, org, projectId, status)
    requires t.orderIndex == NextOrderIndex(tasks, org, projectId, status)
    ensures NextOrderIndex(tasks + [t], org, projectId, status) == t.orderIndex + 1
  {
    var p := (x: Task) => InLane(x, org, projectId, status);
    var lane := LaneTasks(tasks, org, projectId, status);
    FilterAppend(tasks, [t], p);
    var lane' := LaneTasks(tasks + [t], org, projectId, status);
    assert lane' == lane + [t];
    assert forall k :: 0 <= k < |lane| ==> lane[k].orderIndex < t.orderIndex;
    assert MaxOrderIndex(lane') == t.orderIndex by {
      var k :| 0 <= k < |lane'| && lane'[k].orderIndex == MaxOrderIndex(lane');
      assert k < |lane| ==> lane'[k] == lane[k];
      assert lane'[|lane'| - 1] == t;
    }
  }

  /** A task created without an explicit index goes to the end of its lane:
      after it, its index is the lane's largest, and the lane's other tasks keep
      theirs. */
  lemma CreateAppendsToLane(s: Store, org: Id, d: CreateTaskDto, newId: Id, now: int)
    requires ValidCreateTask(d) && d.orderIndex.None?
    requires Create(s, org, d, newId, now).Ok?
    ensures var (s', t) := Create(s, org, d, newId, now).value;
      && NextOrderIndex(s'.tasks, org, d.projectId, t.status) == t.orderIndex + 1
      && (forall i :: 0 <= i < |s.tasks| ==> s'.tasks[i] == s.tasks[i])
  {
    var (s', t) := Create(s, org, d, newId, now).value;
    NextAfterAppend(s.tasks, t, org, d.projectId, t.status);
  }

  /** Creating tasks one after another in the same lane, without explicit
      indices, numbers them consecutively. */
  lemma SuccessiveCreates(s: Store, org: Id, d1: CreateTaskDto, d2: CreateTaskDto, id1: Id, id2: Id, now1: int, now2: int)
    requires ValidCreateTask(d1) && ValidCreateTask(d2)
    requires d1.orderIndex.None? && d2.orderIndex.None?
    requires d1.projectId == d2.projectId && d1.status.GetOr("TODO") == d2.status.GetOr("TODO")
    requires Create(s, org, d1, id1, now1).Ok?
    requires Create(Create(s, org, d1, id1, now1).value.0, org, d2, id2, now2).Ok?
    ensures Create(Create(s, org, d1, id1, now1).value.0, org, d2, id2, now2).value.1.orderIndex
            == Create(s, org, d1, id1, now1).value.1.orderIndex + 1
  {
    CreateAppendsToLane(s, org, d1, id1, now1);
  }

  // ---------------------------------------------------------------- list

  /** The list endpoint's filters; an absent one does not restrict. */
  datatype TaskFilter = TaskFilter(projectId: Option<Id>, status: Option<string>, assigneeId: Option<Id>, search: Option<string>)

  /** The `where` of `findAll`. `contains(text, needle)` is the database's
      case-insensitive substring test, left abstract. */
  predicate MatchesFilter(t: Task, org: Id, f: TaskFilter, contains: (string, string) -> bool) {
    && t.organizationId == org
    && (Given(f.projectId) ==> t.projectId == f.projectId.value)
    && (Given(f.status) ==> t.status == f.status.value)
    && (Given(f.assigneeId) ==> f.assigneeId.value in t.assignees)
    && (Given(f.search) ==>
          contains(t.title, f.search.value)
          || (t.description.Some? && contains(t.description.value, f.search.value)))
  }

  /** `orderBy: [{ status: 'asc' }, { orderIndex: 'asc' }, { createdAt: 'desc' }]`. */
  predicate ListLe(a: Task, b: Task) {
    LexLe(a.status, b.status)
    && (a.status == b.status ==>
          a.orderIndex < b.orderIndex || (a.orderIndex == b.orderIndex && a.createdAt >= b.createdAt))
  }

  lemma ListLeTotalPreorder()
    ensures TotalPreorder(ListLe)
  {
    forall a: Task, b: Task ensures ListLe(a, b) || ListLe(b, a) {
      LexLeTotal(a.status, b.status);
      if a.status != b.status && LexLe(a.status, b.status) && LexLe(b.status, a.status) {
        LexLeAntisymmetric(a.status, b.status);
      }
    }
    forall a: Task, b: Task, c: Task | ListLe(a, b) && ListLe(b, c) ensures ListLe(a, c) {
      LexLeTransitive(a.status, b.status, c.status);
      if a.status == c.status && a.status != b.status {
        LexLeAntisymmetric(a.status, b.status);
      }
    }
  }

  /** The organization's tasks the filters select, in storage order. */
  function Matching(s: Store, org: Id, f: TaskFilter, contains: (string, string) -> bool): seq<Task> {
    Filter(s.tasks, (t: Task) => MatchesFilter(t, org, f, contains))
  }

  /** `findAll`: the page of the organization's matching tasks, in list order,
      with the total count and `Math.ceil(total / limit)` pages. */
  function FindAll(s: Store, org: Id, f: TaskFilter, page: int, limit: int, contains: (string, string) -> bool): (r: Page<Task>)
    requires page >= 1 && limit >= 1
    ensures forall k :: 0 <= k < |r.items| ==> r.items[k] in s.tasks && MatchesFilter(r.items[k], org, f, contains)
    ensures SortedBy(r.items, ListLe)
    ensures |r.items| <= limit
    ensures ListedPage(r.items, Matching(s, org, f, contains), ListLe, page, limit)
    ensures r.total == |Matching(s, org, f, contains)|
    ensures r.totalPages * limit >= r.total && (r.totalPages > 0 ==> (r.totalPages - 1) * limit < r.total)
    ensures r.page == page && r.limit == limit
  {
    var matching := Matching(s, org, f, contains);
    ListLeTotalPreorder();
    var items := OrderedPage(matching, ListLe, page, limit);
    Page(items, |matching|, page, limit, TotalPages(|matching|, limit))
  }

  /** The task page sends `search`, `status` and `projectId` as empty strings
      until the user picks one. Each of them, and an empty `assigneeId`, is
      falsy, so the `where` drops it and the list holds every task of the
      organization. */
  lemma EmptyFiltersMatchAll(s: Store, org: Id, contains: (string, string) -> bool)
    ensures Matching(s, org, TaskFilter(Some(""), Some(""), Some(""), Some("")), contains)
            == Filter(s.tasks, (t: Task) => t.organizationId == org)
  {
    FilterSame(s.tasks, (t: Task) => MatchesFilter(t, org, TaskFilter(Some(""), Some(""), Some(""), Some("")), contains),
               (t: Task) => t.organizationId == org);
  }

  /** Tenant isolation: no page of the list ever shows another organization's task. */
  lemma ListIsTenantScoped(s: Store, org: Id, f: TaskFilter, page: int, limit: int, contains: (string, string) -> bool, t: Task)
    requires page >= 1 && limit >= 1
    requires t in FindAll(s, org, f, page, limit, contains).items
    ensures t.organizationId == org
  {
    var items := FindAll(s, org, f, page, limit, contains).items;
    var k :| 0 <= k < |items| && items[k] == t;
  }

  /** When all matches fit in one page, the first page lists every one of
      them; otherwise it lists the front of the list order. */
  lemma FirstPageOfList(s: Store, org: Id, f: TaskFilter, limit: int, contains: (string, string) -> bool)
    requires limit >= 1
    ensures var items := FindAll(s, org, f, 1, limit, contains).items;
      && (|Matching(s, org, f, contains)| <= limit ==> multiset(items) == multiset(Matching(s, org, f, contains)))
      && (forall x, k :: x in multiset(Matching(s, org, f, contains)) - multiset(items) && 0 <= k < |items| ==>
            ListLe(items[k], x))
  {
    var items := FindAll(s, org, f, 1, limit, contains).items;
    if |Matching(s, org, f, contains)| <= limit {
      PageAllRows(items, Matching(s, org, f, contains), ListLe, limit);
    }
    PageFront(items, Matching(s, org, f, contains), ListLe, limit);
  }

  // ---------------------------------------------------------------- kanban

  datatype ProjectRef = ProjectRef(id: Id, name: string, code: string)

  /** The board: the project summary and one array per status. */
  datatype Board = Board(project: ProjectRef, todo: seq<Task>, inProgress: seq<Task>, inReview: seq<Task>, done: seq<Task>)

  function LaneOf(b: Board, st: TaskStatus): seq<Task> {
    match st
    case Todo => b.todo
    case InProgress => b.inProgress
    case InReview => b.inReview
    case Done => b.done
  }

  function ProjectTasks(s: Store, org: Id, projectId: Id): seq<Task> {
    Filter(s.tasks, (t: Task) => t.organizationId == org && t.projectId == projectId)
  }

  /** `orderBy: [{ status: 'asc' }, { orderIndex: 'asc' }]`. */
  predicate KanbanLe(a: Task, b: Task) {
    LexLe(a.status, b.status) && (a.status == b.status ==> a.orderIndex <= b.orderIndex)
  }

  predicate OrderLe(a: Task, b: Task) {
    a.orderIndex <= b.orderIndex
  }

  lemma KanbanLeTotalPreorder()
    ensures TotalPreorder(KanbanLe)
  {
    forall a: Task, b: Task ensures KanbanLe(a, b) || KanbanLe(b, a) {
      LexLeTotal(a.status, b.status);
      if a.status != b.status && LexLe(a.status, b.status) && LexLe(b.status, a.status) {
        LexLeAntisymmetric(a.status, b.status);
      }
    }
    forall a: Task, b: Task, c: Task | KanbanLe(a, b) && KanbanLe(b, c) ensures KanbanLe(a, c) {
      LexLeTransitive(a.status, b.status, c.status);
      if a.status == c.status && a.status != b.status {
        LexLeAntisymmetric(a.status, b.status);
      }
    }
  }

  /** The tasks whose stored status is `name`, in order. */
  function WithStatus(xs: seq<Task>, name: string): (r: seq<Task>)
    ensures forall k :: 0 <= k < |r| ==> r[k].status == name
  {
    if xs == [] then []
    else
      var rest := WithStatus(xs[..|xs| - 1], name);
      if xs[|xs| - 1].status == name then rest + [xs[|xs| - 1]] else rest
  }

  lemma WithStatusPrefix(xs: seq<Task>, i: nat, name: string)
    requires i < |xs|
    ensures WithStatus(xs[..i + 1], name) ==
      if xs[i].status == name then WithStatus(xs[..i], name) + [xs[i]] else WithStatus(xs[..i], name)
  {
    assert xs[..i + 1][..i] == xs[..i];
  }

  /** A task occurs in `WithStatus(xs, name)` as often as in `xs` when its status
      is `name`, and not at all otherwise. */
  lemma {:induction false} WithStatusCount(xs: seq<Task>, name: string, t: Task)
    ensures multiset(WithStatus(xs, name))[t] == if t.status == name then multiset(xs)[t] else 0
  {
    if xs != [] {
      var init := xs[..|xs| - 1];
      assert xs == init + [xs[|xs| - 1]];
      WithStatusCount(init, name, t);
    }
  }

  lemma WithStatusPermutation(xs: seq<Task>, ys: seq<Task>, name: string)
    requires multiset(xs) == multiset(ys)
    ensures multiset(WithStatus(xs, name)) == multiset(WithStatus(ys, name))
  {
    forall t: Task ensures multiset(WithStatus(xs, name))[t] == multiset(WithStatus(ys, name))[t] {
      WithStatusCount(xs, name, t);
      WithStatusCount(ys, name, t);
    }
  }

  /** Taking one status out of a list in board order leaves it in ascending
      order index. */
  lemma {:induction false} WithStatusSorted(xs: seq<Task>, name: string)
    requires SortedBy(xs, KanbanLe)
    ensures SortedBy(WithStatus(xs, name), OrderLe)
  {
    if xs != [] {
      var init, x := xs[..|xs| - 1], xs[|xs| - 1];
      assert SortedBy(init, KanbanLe) by {
        forall i, j | 0 <= i < j < |init| ensures KanbanLe(init[i], init[j]) {
          assert init[i] == xs[i] && init[j] == xs[j];
        }
      }
      WithStatusSorted(init, name);
      var rest := WithStatus(init, name);
      if x.status == name {
        forall k | 0 <= k < |rest| ensures OrderLe(rest[k], x) {
          WithStatusCount(init, name, rest[k]);
          assert rest[k] in multiset(rest);
          assert rest[k] in multiset(init);
          var i :| 0 <= i < |init| && init[i] == rest[k];
          assert KanbanLe(xs[i], xs[|xs| - 1]);
        }
      }
    }
  }

  /** `getKanbanBoard`: the project's tasks, fetched in board order, pushed
      one by one onto the array of their status; a task whose stored status is
      none of the four is left out. */
  method GetKanbanBoard(s: Store, org: Id, projectId: Id) returns (r: Result<Board>)
    ensures ProjectIn(s, org, projectId).None? <==> r == Err(NotFound("Project not found"))
    ensures r.Ok? <==> ProjectIn(s, org, projectId).Some?
    ensures r.Ok? ==> r.value.project.id == projectId
    ensures r.Ok? ==> r.value.project.name == ProjectIn(s, org, projectId).value.name
                      && r.value.project.code == ProjectIn(s, org, projectId).value.code
    ensures r.Ok? ==> forall st: TaskStatus ::
      && SortedBy(LaneOf(r.value, st), OrderLe)
      && multiset(LaneOf(r.value, st)) == multiset(WithStatus(ProjectTasks(s, org, projectId), StatusName(st)))
  {
    var project := ProjectIn(s, org, projectId);
    if project.None? {
      return Err(NotFound("Project not found"));
    }
    KanbanLeTotalPreorder();
    var tasks := Sort(ProjectTasks(s, org, projectId), KanbanLe);
    var todo, inProgress, inReview, done := [], [], [], [];
    for i := 0 to |tasks|
      invariant todo == WithStatus(tasks[..i], "TODO")
      invariant inProgress == WithStatus(tasks[..i], "IN_PROGRESS")
      invariant inReview == WithStatus(tasks[..i], "IN_REVIEW")
      invariant done == WithStatus(tasks[..i], "DONE")
    {
      var t := tasks[i];
      WithStatusPrefix(tasks, i, "TODO");
      WithStatusPrefix(tasks, i, "IN_PROGRESS");
      WithStatusPrefix(tasks, i, "IN_REVIEW");
      WithStatusPrefix(tasks, i, "DONE");
      match ParseStatus(t.status) {
        case Some(Todo) => todo := todo + [t];
        case Some(InProgress) => inProgress := inProgress + [t];
        case Some(InReview) => inReview := inReview + [t];
        case Some(Done) => done := done + [t];
        case None =>
      }
    }
    assert tasks[..|tasks|] == tasks;
    var p := project.value;
    r := Ok(Board(ProjectRef(p.id, p.name, p.code), todo, inProgress, inReview, done));
    BoardLanes(tasks, ProjectTasks(s, org, projectId), r.value);
  }

  lemma BoardLanes(sorted: seq<Task>, tasks: seq<Task>, b: Board)
    requires SortedBy(sorted, KanbanLe) && multiset(sorted) == multiset(tasks)
    requires b.todo == WithStatus(sorted, "TODO") && b.inProgress == WithStatus(sorted, "IN_PROGRESS")
    requires b.inReview == WithStatus(sorted, "IN_REVIEW") && b.done == WithStatus(sorted, "DONE")
    ensures forall st: TaskStatus ::
      && SortedBy(LaneOf(b, st), OrderLe)
      && multiset(LaneOf(b, st)) == multiset(WithStatus(tasks, StatusName(st)))
  {
    forall st: TaskStatus
      ensures SortedBy(LaneOf(b, st), OrderLe)
      ensures multiset(LaneOf(b, st)) == multiset(WithStatus(tasks, StatusName(st)))
    {
      WithStatusSorted(sorted, StatusName(st));
      WithStatusPermutation(sorted, tasks, StatusName(st));
    }
  }

  /** Board completeness: a task of the project is on some lane exactly when its
      status is one of the four; it is then on its own status's lane only, as
      many times as it is stored. */
  lemma BoardPlacement(s: Store, org: Id, projectId: Id, b: Board, t: Task, st: TaskStatus)
    requires forall st: TaskStatus ::
      multiset(LaneOf(b, st)) == multiset(WithStatus(ProjectTasks(s, org, projectId), StatusName(st)))
    ensures multiset(LaneOf(b, st))[t] ==
      if ParseStatus(t.status) == Some(st) then multiset(ProjectTasks(s, org, projectId))[t] else 0
  {
    WithStatusCount(ProjectTasks(s, org, projectId), StatusName(st), t);
    ParseStatusRoundTrip(t.status, st);
  }

  // ---------------------------------------------------------------- update

  /** The fields an update writes: each given field replaces the stored one, the
      assignee set is replaced wholesale, and the project never changes. */
  function Patched(t: Task, d: UpdateTaskDto): (u: Task)
    ensures u.id == t.id && u.organizationId == t.organizationId && u.projectId == t.projectId
    ensures u.createdAt == t.createdAt
    ensures u.title == d.title.GetOr(t.title)
    ensures u.description == (if d.description.Some? then d.description else t.description)
    ensures u.parentId == (if d.parentId.Some? then d.parentId else t.parentId)
    ensures u.status == d.status.GetOr(t.status) && u.priority == d.priority.GetOr(t.priority)
    ensures u.tags == d.tags.GetOr(t.tags)
    ensures u.dueDate == (if d.dueDate.Some? then d.dueDate else t.dueDate)
    ensures u.estimatedHours == (if d.estimatedHours.Some? then d.estimatedHours else t.estimatedHours)
    ensures u.orderIndex == d.orderIndex.GetOr(t.orderIndex)
    ensures d.assigneeIds.None? ==> u.assignees == t.assignees
    ensures d.assigneeIds.Some? ==> forall a :: a in u.assignees <==> a in d.assigneeIds.value
    ensures d == UpdateTaskDto(None, None, None, None, None, None, None, None, None, None) ==> u == t
  {
    t.(title := d.title.GetOr(t.title),
       description := if d.description.Some? then d.description else t.description,
       parentId := if d.parentId.Some? then d.parentId else t.parentId,
       status := d.status.GetOr(t.status),
       priority := d.priority.GetOr(t.priority),
       tags := d.tags.GetOr(t.tags),
       dueDate := if d.dueDate.Some? then d.dueDate else t.dueDate,
       estimatedHours := if d.estimatedHours.Some? then d.estimatedHours else t.estimatedHours,
       assignees := if d.assigneeIds.Some? then AssigneeSet(d.assigneeIds) else t.assignees,
       orderIndex := d.orderIndex.GetOr(t.orderIndex))
  }

  /** `update`. A missing task is NotFound; a given parent must be a task of
      the same organization and of the task's project (NotFound), and must not
      be the task itself (Forbidden); given assignees are checked as in `create`. */
  function Update(s: Store, org: Id, id: Id, d: UpdateTaskDto): (r: Result<(Store, Task)>)
    requires ValidUpdateTask(d)
    ensures TaskIn(s, org, id).None? ==> r == Err(NotFound("Task not found"))
    ensures TaskIn(s, org, id).Some? && Given(d.parentId) && d.parentId.value == id ==> r == Err(Forbidden("Task cannot be its own parent"))
    ensures TaskIn(s, org, id).Some? && Given(d.parentId)
            && TaskInProject(s, org, d.parentId.value, TaskIn(s, org, id).value.projectId).None? ==>
      r == Err(NotFound("Parent task not found"))
    ensures r.Ok? <==>
      && TaskIn(s, org, id).Some?
      && (Given(d.parentId) ==>
            d.parentId.value != id && TaskInProject(s, org, d.parentId.value, TaskIn(s, org, id).value.projectId).Some?)
      && (d.assigneeIds.Some? ==>
            (forall i :: 0 <= i < |d.assigneeIds.value| ==> IsOrgUser(s, org, d.assigneeIds.value[i]))
            && Distinct(d.assigneeIds.value))
    ensures r.Ok? ==>
      var (s', u) := r.value;
      u == Patched(TaskIn(s, org, id).value, d) && s' == s.(tasks := Replace(s.tasks, IdOfTask, id, u))
  {
    var found := TaskIn(s, org, id);
    if found.None? then Err(NotFound("Task not found"))
    else
      var t := found.value;
      assert TaskInProject(s, org, id, t.projectId).Some? by {
        var k :| 0 <= k < |s.tasks| && s.tasks[k] == t;
      }
      if Given(d.parentId) && TaskInProject(s, org, d.parentId.value, t.projectId).None? then
        Err(NotFound("Parent task not found"))
      else if Given(d.parentId) && d.parentId.value == id then
        Err(Forbidden("Task cannot be its own parent"))
      else if d.assigneeIds.Some? && |d.assigneeIds.value| > 0
           && |FoundUserIds(s, org, d.assigneeIds.value)| != |d.assigneeIds.value| then
        UserCountCheck(s, org, d.assigneeIds.value);
        Err(NotFound("One or more assignees not found"))
      else
        assert d.assigneeIds.Some? ==>
          (forall i :: 0 <= i < |d.assigneeIds.value| ==> IsOrgUser(s, org, d.assigneeIds.value[i]))
          && Distinct(d.assigneeIds.value) by {
          if d.assigneeIds.Some? { UserCountCheck(s, org, d.assigneeIds.value); }
        }
        var u := Patched(t, d);
        Ok((s.(tasks := Replace(s.tasks, IdOfTask, id, u)), u))
  }

  /** Lane isolation: an update, a change of status included, leaves every
      other task, and so every other task's order index, as it was, and does
      not renumber the updated task unless asked to. */
  lemma UpdateTouchesOneTask(s: Store, org: Id, id: Id, d: UpdateTaskDto)
    requires ValidUpdateTask(d) && Update(s, org, id, d).Ok?
    ensures var (s', u) := Update(s, org, id, d).value;
      && |s'.tasks| == |s.tasks|
      && (forall i :: 0 <= i < |s.tasks| && s.tasks[i].id != id ==> s'.tasks[i] == s.tasks[i])
      && (d.orderIndex.None? ==> u.orderIndex == TaskIn(s, org, id).value.orderIndex)
      && u.projectId == TaskIn(s, org, id).value.projectId
      && s'.users == s.users && s'.projects == s.projects && s'.entries == s.entries
  {
  }

  // ---------------------------------------------------------------- remove

  /** `_count.subtasks`: the tasks naming `id` as their parent. */
  function SubtaskCount(s: Store, id: Id): (n: nat)
    ensures n > 0 <==> exists i :: 0 <= i < |s.tasks| && s.tasks[i].parentId == Some(id)
  {
    var subtasks := Filter(s.tasks, (t: Task) => t.parentId == Some(id));
    FilterKeeps(s.tasks, (t: Task) => t.parentId == Some(id));
    assert |subtasks| > 0 ==> subtasks[0] in s.tasks;
    |subtasks|
  }

  /** `_count.timesheetEntries`: the time entries booked on task `id`. */
  function EntryCount(s: Store, id: Id): (n: nat)
    ensures n > 0 <==> exists i :: 0 <= i < |s.entries| && s.entries[i].taskId == Some(id)
  {
    var booked := Filter(s.entries, (e: Entry) => e.taskId == Some(id));
    FilterKeeps(s.entries, (e: Entry) => e.taskId == Some(id));
    assert |booked| > 0 ==> booked[0] in s.entries;
    |booked|
  }

  /** `remove`. A missing task is NotFound; a task that is some task's parent,
      or that has time entries, is Forbidden (subtasks are checked first);
      otherwise its row is deleted. */
  function Remove(s: Store, org: Id, id: Id): (r: Result<Store>)
    ensures TaskIn(s, org, id).None? ==> r == Err(NotFound("Task not found"))
    ensures TaskIn(s, org, id).Some? && (exists i :: 0 <= i < |s.tasks| && s.tasks[i].parentId == Some(id)) ==>
      r == Err(Forbidden("Cannot delete task with subtasks"))
    ensures TaskIn(s, org, id).Some? && (forall i :: 0 <= i < |s.tasks| ==> s.tasks[i].parentId != Some(id))
            && (exists i :: 0 <= i < |s.entries| && s.entries[i].taskId == Some(id)) ==>
      r == Err(Forbidden("Cannot delete task with time entries"))
    ensures r.Ok? <==>
      && TaskIn(s, org, id).Some?
      && (forall i :: 0 <= i < |s.tasks| ==> s.tasks[i].parentId != Some(id))
      && (forall i :: 0 <= i < |s.entries| ==> s.entries[i].taskId != Some(id))
    ensures r.Ok? ==> r.value == s.(tasks := WithoutId(s.tasks, IdOfTask, id))
  {
    if TaskIn(s, org, id).None? then Err(NotFound("Task not found"))
    else if SubtaskCount(s, id) > 0 then Err(Forbidden("Cannot delete task with subtasks"))
    else if EntryCount(s, id) > 0 then Err(Forbidden("Cannot delete task with time entries"))
    else Ok(s.(tasks := WithoutId(s.tasks, IdOfTask, id)))
  }

  /** After a removal the task is gone, and nothing else is. */
  lemma RemoveDeletesOnlyTheTask(s: Store, org: Id, id: Id)
    requires Remove(s, org, id).Ok?
    ensures !HasTaskId(Remove(s, org, id).value, id)
    ensures forall i :: 0 <= i < |s.tasks| && s.tasks[i].id != id ==> s.tasks[i] in Remove(s, org, id).value.tasks
    ensures Remove(s, org, id).value.entries == s.entries && Remove(s, org, id).value.projects == s.projects
  {
  }

  // ---------------------------------------------------------------- reorder

  datatype OrderItem = OrderItem(id: Id, orderIndex: int)

  function ItemIds(items: seq<OrderItem>): (ids: seq<Id>)
    ensures |ids| == |items| && forall k :: 0 <= k < |items| ==> ids[k] == items[k].id
  {
    seq(|items|, k requires 0 <= k < |items| => items[k].id)
  }

  /** One update of the batch: the task with the item's id takes its index. */
  function SetOrder(tasks: seq<Task>, item: OrderItem): (r: seq<Task>)
    ensures |r| == |tasks|
    ensures forall i :: 0 <= i < |tasks| ==>
      r[i] == if tasks[i].id == item.id then tasks[i].(orderIndex := item.orderIndex) else tasks[i]
  {
    seq(|tasks|, i requires 0 <= i < |tasks| =>
      if tasks[i].id == item.id then tasks[i].(orderIndex := item.orderIndex) else tasks[i])
  }

  /** The batch applied in order. */
  function Reordered(tasks: seq<Task>, items: seq<OrderItem>): seq<Task> {
    if items == [] then tasks
    else SetOrder(Reordered(tasks, items[..|items| - 1]), items[|items| - 1])
  }

  /** What a batch with distinct ids does: each listed task takes its paired
      index, every other field and every unlisted task stays as it was. */
  lemma {:induction false} ReorderedEffect(tasks: seq<Task>, items: seq<OrderItem>)
    requires Distinct(ItemIds(items))
    ensures |Reordered(tasks, items)| == |tasks|
    ensures forall i, k :: 0 <= i < |tasks| && 0 <= k < |items| && items[k].id == tasks[i].id ==>
      Reordered(tasks, items)[i] == tasks[i].(orderIndex := items[k].orderIndex)
    ensures forall i :: 0 <= i < |tasks| && (forall k :: 0 <= k < |items| ==> items[k].id != tasks[i].id) ==>
      Reordered(tasks, items)[i] == tasks[i]
  {
    if items != [] {
      var init := items[..|items| - 1];
      assert Distinct(ItemIds(init)) by {
        forall a, b | 0 <= a < b < |init| ensures ItemIds(init)[a] != ItemIds(init)[b] {
          assert ItemIds(items)[a] != ItemIds(items)[b];
        }
      }
      ReorderedEffect(tasks, init);
      forall i, k | 0 <= i < |tasks| && 0 <= k < |items| && items[k].id == tasks[i].id
        ensures Reordered(tasks, items)[i] == tasks[i].(orderIndex := items[k].orderIndex)
      {
        if k < |items| - 1 {
          assert ItemIds(items)[k] != ItemIds(items)[|items| - 1];
          assert init[k] == items[k];
        }
      }
      forall i | 0 <= i < |tasks| && (forall k :: 0 <= k < |items| ==> items[k].id != tasks[i].id)
        ensures Reordered(tasks, items)[i] == tasks[i]
      {
        assert forall k :: 0 <= k < |init| ==> init[k] == items[k];
      }
    }
  }

  /** The database, as far as the bulk reorder is concerned: its tasks are
      rewritten in one transaction. */
  class Database {
    var store: Store

    constructor (s: Store)
      ensures store == s
    {
      store := s;
    }

    /** `updateOrder`. Unless every listed id is a task of the organization and no
        id is listed twice (the check counts rows), nothing changes and NotFound is
        raised; otherwise the whole batch is committed at once. */
    method UpdateOrder(org: Id, items: seq<OrderItem>) returns (r: Result<bool>)
      modifies this
      ensures r.Ok? <==> (forall k :: 0 <= k < |items| ==> IsOrgTask(old(store), org, items[k].id)) && Distinct(ItemIds(items))
      ensures r.Err? ==> r.error == NotFound("One or more tasks not found") && store == old(store)
      ensures r.Ok? ==> r.value && store == old(store).(tasks := Reordered(old(store).tasks, items))
      ensures r.Ok? ==> |store.tasks| == |old(store).tasks|
      ensures r.Ok? ==> forall i, k :: 0 <= i < |store.tasks| && 0 <= k < |items| && items[k].id == old(store).tasks[i].id ==>
        store.tasks[i] == old(store).tasks[i].(orderIndex := items[k].orderIndex)
      ensures r.Ok? ==> forall i :: 0 <= i < |store.tasks| && (forall k :: 0 <= k < |items| ==> items[k].id != old(store).tasks[i].id) ==>
        store.tasks[i] == old(store).tasks[i]
    {
      var ids := ItemIds(items);
      TaskCountCheck(store, org, ids);
      if |FoundTaskIds(store, org, ids)| != |ids| {
        return Err(NotFound("One or more tasks not found"));
      }
      var tasks := store.tasks;
      for i := 0 to |items|
        invariant tasks == Reordered(store.tasks, items[..i])
      {
        assert items[..i + 1][..i] == items[..i];
        tasks := SetOrder(tasks, items[i]);
      }
      assert items[..|items|] == items;
      ReorderedEffect(store.tasks, items);
      store := store.(tasks := tasks);
      r := Ok(true);
    }
  }
}
