/** `TimesheetsService`: guarded create and update of time entries, the paged
    entry list with its minute summary, and the weekly summary that groups a
    week's entries into per-day and per-project buckets. */
module TimesheetsService {
  import opened Wrappers
  import opened Seqs
  import opened Sorting
  import opened Store
  import opened EntryDto
  import opened Grouping
  import opened Calendar

  // ---------------------------------------------------------------- create

  /** `create`. The project must be one of the organization's and a given task
      one of the organization's tasks on that project (both NotFound, in that
      order). The entry is stored under the caller's organization and user;
      `newId` and `now` are the id and creation time the database assigns. */
  function Create(s: Store, org: Id, userId: Id, d: CreateEntryDto, newId: Id, now: int): (r: Result<(Store, Entry)>)
    requires ValidCreateEntry(d)
    ensures ProjectIn(s, org, d.projectId).None? ==> r == Err(NotFound("Project not found"))
    ensures (ProjectIn(s, org, d.projectId).Some? && Given(d.taskId)
             && TaskInProject(s, org, d.taskId.value, d.projectId).None?) ==> r == Err(NotFound("Task not found"))
    ensures r.Ok? <==>
      ProjectIn(s, org, d.projectId).Some?
      && (Given(d.taskId) ==> TaskInProject(s, org, d.taskId.value, d.projectId).Some?)
    ensures r.Ok? ==>
      var (s', e) := r.value;
      && s' == s.(entries := s.entries + [e])
      && e.id == newId && e.organizationId == org && e.userId == userId
      && e.projectId == d.projectId && e.taskId == d.taskId && e.date == d.date
      && e.minutes == d.minutes && (e.billable <==> d.billable != Some(false))
      && e.hourlyRate == d.hourlyRate && e.notes == d.notes && e.createdAt == now
  {
    if ProjectIn(s, org, d.projectId).None? then Err(NotFound("Project not found"))
    else if Given(d.taskId) && TaskInProject(s, org, d.taskId.value, d.projectId).None? then
      Err(NotFound("Task not found"))
    else
      var e := Entry(newId, org, userId, d.projectId, d.taskId, d.date, d.minutes,
                     CreatedBillable(d), d.hourlyRate, d.notes, now);
      Ok((s.(entries := s.entries + [e]), e))
  }

  // ---------------------------------------------------------------- list

  /** The list endpoint's filters. The date range is `from` through `to`. */
  datatype EntryFilter = EntryFilter(userId: Option<Id>, projectId: Option<Id>, from: Option<int>, to: Option<int>)

  /** The `where` of `findAll`: the range applies only when both ends are given. */
  predicate MatchesEntry(e: Entry, org: Id, f: EntryFilter) {
    && e.organizationId == org
    && (Given(f.userId) ==> e.userId == f.userId.value)
    && (Given(f.projectId) ==> e.projectId == f.projectId.value)
    && (f.from.Some? && f.to.Some? ==> f.from.value <= e.date <= f.to.value)
  }

  /** `orderBy: [{ date: 'desc' }, { createdAt: 'desc' }]`. */
  predicate NewestFirst(a: Entry, b: Entry) {
    a.date > b.date || (a.date == b.date && a.createdAt >= b.createdAt)
  }

  lemma NewestFirstTotalPreorder()
    ensures TotalPreorder(NewestFirst)
  {
  }

  function EntryMinutes(e: Entry): nat {
    e.minutes
  }

  function BillableMinutes(e: Entry): nat {
    if e.billable then e.minutes else 0
  }

  predicate IsBillable(e: Entry) {
    e.billable
  }

  /** `items.filter(entry => entry.billable).reduce(...)` equals summing the
      billable part of every entry, and is at most the total. */
  lemma {:induction false} BillableSum(xs: seq<Entry>)
    ensures Total(Filter(xs, IsBillable), EntryMinutes) == Total(xs, BillableMinutes)
    ensures Total(xs, BillableMinutes) <= Total(xs, EntryMinutes)
  {
    if xs != [] {
      var init, x := xs[..|xs| - 1], xs[|xs| - 1];
      BillableSum(init);
      if x.billable {
        TotalSnoc(Filter(init, IsBillable), x, EntryMinutes);
      }
    }
    TotalMonotone(xs, BillableMinutes, EntryMinutes);
  }

  /** Minutes as hours; `Math.round(x * 100) / 100` is not applied. */
  function Hours(minutes: nat): real {
    minutes as real / 60.0
  }

  /** The list's summary. */
  datatype EntrySummary = EntrySummary(totalMinutes: nat, billableMinutes: nat, totalHours: real, billableHours: real)

  /** The summary of `findAll`: minute sums over the entries of the page. */
  function Summarize(items: seq<Entry>): (r: EntrySummary)
    ensures r.totalMinutes == Total(items, EntryMinutes)
    ensures r.billableMinutes == Total(items, BillableMinutes)
    ensures r.billableMinutes <= r.totalMinutes
    ensures r.totalHours == Hours(r.totalMinutes) && r.billableHours == Hours(r.billableMinutes)
  {
    var totalMinutes := Total(items, EntryMinutes);
    var billableMinutes := Total(Filter(items, IsBillable), EntryMinutes);
    BillableSum(items);
    EntrySummary(totalMinutes, billableMinutes, Hours(totalMinutes), Hours(billableMinutes))
  }

  datatype EntryList = EntryList(page: Page<Entry>, summary: EntrySummary)

  /** The organization's entries the filters select, in storage order. */
  function MatchingEntries(s: Store, org: Id, f: EntryFilter): seq<Entry> {
    Filter(s.entries, (e: Entry) => MatchesEntry(e, org, f))
  }

  /** `findAll`: the page of matching entries of the organization, newest first,
      and the minute sums of that page. */
  function FindAll(s: Store, org: Id, f: EntryFilter, page: int, limit: int): (r: EntryList)
    requires page >= 1 && limit >= 1
    ensures forall k :: 0 <= k < |r.page.items| ==> r.page.items[k] in s.entries && MatchesEntry(r.page.items[k], org, f)
    ensures SortedBy(r.page.items, NewestFirst)
    ensures |r.page.items| <= limit
    ensures ListedPage(r.page.items, MatchingEntries(s, org, f), NewestFirst, page, limit)
    ensures r.page.total == |MatchingEntries(s, org, f)|
    ensures r.page.page == page && r.page.limit == limit
    ensures r.page.totalPages * limit >= r.page.total && (r.page.totalPages > 0 ==> (r.page.totalPages - 1) * limit < r.page.total)
    ensures r.summary == Summarize(r.page.items)
  {
    var matching := MatchingEntries(s, org, f);
    NewestFirstTotalPreorder();
    var items := OrderedPage(matching, NewestFirst, page, limit);
    EntryList(Page(items, |matching|, page, limit, TotalPages(|matching|, limit)), Summarize(items))
  }

  /** When all matches fit in one page, the first page lists every one of
      them; otherwise it lists the newest of them. */
  lemma FirstPageOfList(s: Store, org: Id, f: EntryFilter, limit: int)
    requires limit >= 1
    ensures var items := FindAll(s, org, f, 1, limit).page.items;
      && (|MatchingEntries(s, org, f)| <= limit ==> multiset(items) == multiset(MatchingEntries(s, org, f)))
      && (forall x, k :: x in multiset(MatchingEntries(s, org, f)) - multiset(items) && 0 <= k < |items| ==>
            NewestFirst(items[k], x))
  {
    var items := FindAll(s, org, f, 1, limit).page.items;
    if |MatchingEntries(s, org, f)| <= limit {
      PageAllRows(items, MatchingEntries(s, org, f), NewestFirst, limit);
    }
    PageFront(items, MatchingEntries(s, org, f), NewestFirst, limit);
  }

  /** Without both ends of the range, an entry's date does not matter. */
  lemma HalfRangeIgnored(e: Entry, org: Id, f: EntryFilter, date: int)
    requires f.from.None? || f.to.None?
    ensures MatchesEntry(e, org, f) <==> MatchesEntry(e.(date := date), org, f)
  {
  }

  /** A filter sent as the empty string is falsy and dropped from the
      `where`: it lists the organization's entries as if it were absent. */
  lemma EmptyFiltersIgnored(e: Entry, org: Id, from: Option<int>, to: Option<int>)
    ensures MatchesEntry(e, org, EntryFilter(Some(""), Some(""), from, to))
            <==> MatchesEntry(e, org, EntryFilter(None, None, from, to))
  {
  }

  // ---------------------------------------------------------------- update

  /** The fields an update writes; the project is never among them. */
  function PatchedEntry(e: Entry, d: UpdateEntryDto): (u: Entry)
    ensures u.id == e.id && u.organizationId == e.organizationId && u.userId == e.userId
    ensures u.projectId == e.projectId && u.createdAt == e.createdAt
    ensures d.date.None? ==> u.date == e.date
    ensures d.date.Some? ==> u.date == d.date.value
    ensures u.minutes == if d.minutes.Some? && d.minutes.value >= 0 then d.minutes.value else e.minutes
    ensures u.taskId == (if d.taskId.Some? then d.taskId else e.taskId)
    ensures u.billable == d.billable.GetOr(e.billable)
    ensures u.hourlyRate == (if d.hourlyRate.Some? then d.hourlyRate else e.hourlyRate)
    ensures u.notes == (if d.notes.Some? then d.notes else e.notes)
    ensures d == UpdateEntryDto(None, None, None, None, None, None) ==> u == e
  {
    e.(taskId := if d.taskId.Some? then d.taskId else e.taskId,
       date := d.date.GetOr(e.date),
       minutes := if d.minutes.Some? && d.minutes.value >= 0 then d.minutes.value else e.minutes,
       billable := d.billable.GetOr(e.billable),
       hourlyRate := if d.hourlyRate.Some? then d.hourlyRate else e.hourlyRate,
       notes := if d.notes.Some? then d.notes else e.notes)
  }

  /** `update`. The entry must be the organization's; a given task must be one
      of the organization's tasks on the entry's own project. */
  function Update(s: Store, org: Id, id: Id, d: UpdateEntryDto): (r: Result<(Store, Entry)>)
    requires ValidUpdateEntry(d)
    ensures EntryIn(s, org, id).None? ==> r == Err(NotFound("Timesheet entry not found"))
    ensures EntryIn(s, org, id).Some? && Given(d.taskId)
            && TaskInProject(s, org, d.taskId.value, EntryIn(s, org, id).value.projectId).None? ==>
      r == Err(NotFound("Task not found"))
    ensures r.Err? ==> r.error.NotFound?
    ensures r.Ok? <==>
      EntryIn(s, org, id).Some?
      && (Given(d.taskId) ==> TaskInProject(s, org, d.taskId.value, EntryIn(s, org, id).value.projectId).Some?)
    ensures r.Ok? ==>
      var (s', u) := r.value;
      u == PatchedEntry(EntryIn(s, org, id).value, d) && s' == s.(entries := Replace(s.entries, IdOfEntry, id, u))
  {
    var found := EntryIn(s, org, id);
    if found.None? then Err(NotFound("Timesheet entry not found"))
    else if Given(d.taskId) && TaskInProject(s, org, d.taskId.value, found.value.projectId).None? then
      Err(NotFound("Task not found"))
    else
      var u := PatchedEntry(found.value, d);
      Ok((s.(entries := Replace(s.entries, IdOfEntry, id, u)), u))
  }

  /** After an update the entry is still on its project, and a task it now
      names belongs to that project. */
  lemma UpdateKeepsProject(s: Store, org: Id, id: Id, d: UpdateEntryDto)
    requires ValidUpdateEntry(d) && Update(s, org, id, d).Ok?
    ensures var u := Update(s, org, id, d).value.1;
      && u.projectId == EntryIn(s, org, id).value.projectId
      && (Given(d.taskId) ==> exists i :: 0 <= i < |s.tasks| && s.tasks[i].id == u.taskId.value
                                 && s.tasks[i].projectId == u.projectId && s.tasks[i].organizationId == org)
  {
    if Given(d.taskId) {
      var t := TaskInProject(s, org, d.taskId.value, EntryIn(s, org, id).value.projectId).value;
      var i :| 0 <= i < |s.tasks| && s.tasks[i] == t;
    }
  }

  // ---------------------------------------------------------------- remove

  /** `remove`: NotFound for an entry outside the organization, else the row is deleted. */
  function Remove(s: Store, org: Id, id: Id): (r: Result<Store>)
    ensures r.Err? <==> EntryIn(s, org, id).None?
    ensures r.Err? ==> r.error == NotFound("Timesheet entry not found")
    ensures r.Ok? ==> r.value.tasks == s.tasks && r.value.projects == s.projects
    ensures r.Ok? ==> forall k :: 0 <= k < |r.value.entries| ==> r.value.entries[k].id != id
    ensures r.Ok? ==> forall i :: 0 <= i < |s.entries| && s.entries[i].id != id ==> s.entries[i] in r.value.entries
    ensures r.Ok? ==> r.value == s.(entries := WithoutId(s.entries, IdOfEntry, id))
  {
    if EntryIn(s, org, id).None? then Err(NotFound("Timesheet entry not found"))
    else Ok(s.(entries := WithoutId(s.entries, IdOfEntry, id)))
  }

  // ---------------------------------------------------------------- week

  /** The default week start as written: `getWeekStart(new Date())`, the Monday
      of the current week at the current time of day. */
  function DefaultWeekStartAsWritten(now: int): (r: int)
    ensures Weekday(r) == Monday && r <= now < r + 7 * DayMs && TimeOfDay(r) == TimeOfDay(now)
  {
    WeekStart(now)
  }

  /** The Monday-morning gap: at 10:00 on a Monday, an entry dated that same
      Monday at 00:00 falls before the as-written default start and is left out
      of "the current week". */
  lemma DefaultWeekMissesMondayMorning()
    ensures var now := 4 * DayMs + 10 * 3600000;
      && Weekday(now) == Monday && DayNumber(now) == 4
      && !(DefaultWeekStartAsWritten(now) <= 4 * DayMs)
  {
    var now := 4 * DayMs + 10 * 3600000;
    ShiftDays(10 * 3600000, 4);
    assert DayNumber(10 * 3600000) == 0 && TimeOfDay(10 * 3600000) == 10 * 3600000;
    assert DayNumber(now) == 4 && TimeOfDay(now) == 10 * 3600000;
    assert Weekday(now) == Monday;
  }

  /** The default week start, corrected: midnight at the start of the current
      week's Monday, as the timesheet page computes it. */
  function DefaultWeekStart(now: int): (r: int)
    ensures Weekday(r) == Monday && TimeOfDay(r) == 0 && r <= now < r + 7 * DayMs
  {
    WeekStartMidnight(now)
  }

  /** The corrected default covers the whole current week: every instant from
      Monday 00:00 to Sunday 23:59:59.999 lies between start and end. */
  lemma DefaultWeekCoversWeek(now: int, t: int)
    requires DayNumber(WeekStart(now)) <= DayNumber(t) <= DayNumber(WeekStart(now)) + 6
    ensures DefaultWeekStart(now) <= t <= WeekEnd(DefaultWeekStart(now))
  {
    var start := DefaultWeekStart(now);
    assert DayNumber(start) == DayNumber(WeekStart(now));
    assert start == DayNumber(start) * DayMs + TimeOfDay(start);
    assert t == DayNumber(t) * DayMs + TimeOfDay(t);
  }

  /** The where of the weekly query: the organization's entries (and the user's,
      when given) dated from `start` to `end`, both included. */
  predicate InWeek(e: Entry, org: Id, userId: Option<Id>, start: int, end: int) {
    e.organizationId == org && (Given(userId) ==> e.userId == userId.value) && start <= e.date <= end
  }

  function WeekEntries(s: Store, org: Id, userId: Option<Id>, start: int, end: int): (r: seq<Entry>)
    ensures forall k :: 0 <= k < |r| ==> r[k] in s.entries && InWeek(r[k], org, userId, start, end)
    ensures forall i :: 0 <= i < |s.entries| && InWeek(s.entries[i], org, userId, start, end) ==> s.entries[i] in r
  {
    FilterKeeps(s.entries, (e: Entry) => InWeek(e, org, userId, start, end));
    Filter(s.entries, (e: Entry) => InWeek(e, org, userId, start, end))
  }

  /** `entry.date.toISOString().split('T')[0]`: the UTC calendar day. */
  function DayKey(e: Entry): int {
    DayNumber(e.date)
  }

  function ProjectKey(e: Entry): Id {
    e.projectId
  }

  /** A `dailySummary` value. */
  datatype DayBucket = DayBucket(totalMinutes: nat, billableMinutes: nat, entries: seq<Entry>)

  /** A `projectSummary` value. */
  datatype ProjectBucket = ProjectBucket(projectId: Id, totalMinutes: nat, billableMinutes: nat)

  /** What the day bucket of day `k` holds after the `forEach` over `xs`. */
  function DayBucketOf(xs: seq<Entry>, k: int): DayBucket {
    var group := Only(xs, DayKey, k);
    DayBucket(Total(group, EntryMinutes), Total(group, BillableMinutes), group)
  }

  /** What the project bucket of `p` holds after the `forEach` over `xs`. */
  function ProjectBucketOf(xs: seq<Entry>, p: Id): ProjectBucket {
    var group := Only(xs, ProjectKey, p);
    ProjectBucket(p, Total(group, EntryMinutes), Total(group, BillableMinutes))
  }

  /** The buckets of the projects `ks`, in that order. */
  function ProjectBuckets(xs: seq<Entry>, ks: seq<Id>): (ps: seq<ProjectBucket>)
    ensures |ps| == |ks| && forall j :: 0 <= j < |ks| ==> ps[j] == ProjectBucketOf(xs, ks[j])
  {
    if ks == [] then [] else [ProjectBucketOf(xs, ks[0])] + ProjectBuckets(xs, ks[1..])
  }

  /** `Object.values(projectSummary)`: the values in key insertion order. */
  function ValuesInOrder(m: map<Id, ProjectBucket>, order: seq<Id>): (vs: seq<ProjectBucket>)
    requires forall j :: 0 <= j < |order| ==> order[j] in m
    ensures |vs| == |order| && forall j :: 0 <= j < |order| ==> vs[j] == m[order[j]]
  {
    if order == [] then [] else [m[order[0]]] + ValuesInOrder(m, order[1..])
  }

  datatype WeeklySummary = WeeklySummary(
    weekStart: int,
    weekEnd: int,
    totalHours: real,
    billableHours: real,
    dailySummary: map<int, DayBucket>,
    projectSummary: seq<ProjectBucket>)

  /** `totalMinutes += minutes`, `billableMinutes += minutes` when billable, and
      `entries.push(entry)` on a day bucket. */
  function AddToDay(b: DayBucket, e: Entry): DayBucket {
    DayBucket(b.totalMinutes + e.minutes, b.billableMinutes + BillableMinutes(e), b.entries + [e])
  }

  /** The same two additions on a project bucket. */
  function AddToProject(b: ProjectBucket, e: Entry): ProjectBucket {
    ProjectBucket(b.projectId, b.totalMinutes + e.minutes, b.billableMinutes + BillableMinutes(e))
  }

  lemma DayBucketSnoc(xs: seq<Entry>, e: Entry, k: int)
    ensures DayBucketOf(xs + [e], k) == if DayKey(e) == k then AddToDay(DayBucketOf(xs, k), e) else DayBucketOf(xs, k)
  {
    OnlySnoc(xs, e, DayKey, k);
    var group := Only(xs, DayKey, k);
    if DayKey(e) == k {
      assert Only(xs + [e], DayKey, k) == group + [e];
      TotalSnoc(group, e, EntryMinutes);
      TotalSnoc(group, e, BillableMinutes);
    } else {
      assert Only(xs + [e], DayKey, k) == group;
    }
  }

  lemma ProjectBucketSnoc(xs: seq<Entry>, e: Entry, p: Id)
    ensures ProjectBucketOf(xs + [e], p) ==
      if ProjectKey(e) == p then AddToProject(ProjectBucketOf(xs, p), e) else ProjectBucketOf(xs, p)
  {
    OnlySnoc(xs, e, ProjectKey, p);
    var group := Only(xs, ProjectKey, p);
    if ProjectKey(e) == p {
      assert Only(xs + [e], ProjectKey, p) == group + [e];
      TotalSnoc(group, e, EntryMinutes);
      TotalSnoc(group, e, BillableMinutes);
    } else {
      assert Only(xs + [e], ProjectKey, p) == group;
    }
  }

  /** A day no entry falls on has the fresh bucket `{ 0, 0, [] }`. */
  lemma DayBucketEmpty(xs: seq<Entry>, k: int)
    requires k !in KeysOf(xs, DayKey)
    ensures DayBucketOf(xs, k) == DayBucket(0, 0, [])
  {
    var g := Only(xs, DayKey, k);
    KeysOfMembers(xs, DayKey);
  }

  lemma ProjectBucketEmpty(xs: seq<Entry>, p: Id)
    requires p !in KeysOf(xs, ProjectKey)
    ensures ProjectBucketOf(xs, p) == ProjectBucket(p, 0, 0)
  {
    var g := Only(xs, ProjectKey, p);
    KeysOfMembers(xs, ProjectKey);
  }

  /** The day dictionary after the entries `seen`: one bucket per day they fall on. */
  ghost predicate DailyIs(daily: map<int, DayBucket>, seen: seq<Entry>) {
    && (forall k :: k in daily <==> k in KeysOf(seen, DayKey))
    && (forall k :: k in daily ==> daily[k] == DayBucketOf(seen, k))
  }

  /** The project dictionary and its key insertion order after the entries `seen`. */
  ghost predicate ProjectsAre(projects: map<Id, ProjectBucket>, order: seq<Id>, seen: seq<Entry>) {
    && order == KeysOf(seen, ProjectKey)
    && (forall p :: p in projects <==> p in order)
    && (forall p :: p in projects ==> projects[p] == ProjectBucketOf(seen, p))
  }

  /** One step of the `forEach` keeps the day dictionary equal to the buckets
      of the entries seen so far. */
  lemma DayStep(seen: seq<Entry>, e: Entry, daily: map<int, DayBucket>)
    requires DailyIs(daily, seen)
    ensures DailyIs(daily[DayKey(e) := AddToDay(if DayKey(e) in daily then daily[DayKey(e)] else DayBucket(0, 0, []), e)],
                    seen + [e])
  {
    var daily' := daily[DayKey(e) := AddToDay(if DayKey(e) in daily then daily[DayKey(e)] else DayBucket(0, 0, []), e)];
    KeysOfSnoc(seen, e, DayKey);
    forall k | k in daily' ensures daily'[k] == DayBucketOf(seen + [e], k) {
      DayBucketSnoc(seen, e, k);
      if k == DayKey(e) && k !in daily {
        DayBucketEmpty(seen, k);
      }
    }
  }

  /** The same for the project dictionary and its key order. */
  lemma ProjectStep(seen: seq<Entry>, e: Entry, order: seq<Id>, projects: map<Id, ProjectBucket>)
    requires ProjectsAre(projects, order, seen)
    ensures ProjectsAre(
      projects[e.projectId := AddToProject(if e.projectId in projects then projects[e.projectId] else ProjectBucket(e.projectId, 0, 0), e)],
      if e.projectId in projects then order else order + [e.projectId],
      seen + [e])
  {
    var projects' := projects[e.projectId := AddToProject(
      if e.projectId in projects then projects[e.projectId] else ProjectBucket(e.projectId, 0, 0), e)];
    KeysOfSnoc(seen, e, ProjectKey);
    forall p | p in projects' ensures projects'[p] == ProjectBucketOf(seen + [e], p) {
      ProjectBucketSnoc(seen, e, p);
      if p == e.projectId && p !in projects {
        ProjectBucketEmpty(seen, p);
      }
    }
  }

  /** `getWeeklySummary` as written. The week runs from `weekStart`, or by
      default from `getWeekStart(new Date())` (`now` is the clock), which keeps
      the current time of day (see `DefaultWeekMissesMondayMorning`). */
  method GetWeeklySummary(s: Store, org: Id, userId: Option<Id>, weekStart: Option<int>, now: int)
    returns (r: WeeklySummary)
    ensures r.weekStart == if weekStart.Some? then weekStart.value else DefaultWeekStartAsWritten(now)
    ensures r.weekEnd == WeekEnd(r.weekStart)
    ensures var xs := WeekEntries(s, org, userId, r.weekStart, r.weekEnd);
      && DailyIs(r.dailySummary, xs)
      && r.projectSummary == ProjectBuckets(xs, KeysOf(xs, ProjectKey))
      && r.totalHours == Hours(Total(xs, EntryMinutes))
      && r.billableHours == Hours(Total(xs, BillableMinutes))
  {
    var start := if weekStart.Some? then weekStart.value else DefaultWeekStartAsWritten(now);
    r := SummarizeWeek(s, org, userId, start);
  }

  /** `getWeeklySummary` with the default the comment "Default to current week"
      intends: midnight of the current week's Monday, so that the default week
      covers the whole current week (see `DefaultWeekCoversWeek`). */
  method IntendedGetWeeklySummary(s: Store, org: Id, userId: Option<Id>, weekStart: Option<int>, now: int)
    returns (r: WeeklySummary)
    ensures r.weekStart == if weekStart.Some? then weekStart.value else DefaultWeekStart(now)
    ensures r.weekEnd == WeekEnd(r.weekStart)
    ensures weekStart.None? ==> forall i ::
      (&& 0 <= i < |s.entries| && s.entries[i].organizationId == org
       && (Given(userId) ==> s.entries[i].userId == userId.value)
       && DayNumber(WeekStart(now)) <= DayNumber(s.entries[i].date) <= DayNumber(WeekStart(now)) + 6) ==>
      s.entries[i] in WeekEntries(s, org, userId, r.weekStart, r.weekEnd)
    ensures var xs := WeekEntries(s, org, userId, r.weekStart, r.weekEnd);
      && DailyIs(r.dailySummary, xs)
      && r.projectSummary == ProjectBuckets(xs, KeysOf(xs, ProjectKey))
      && r.totalHours == Hours(Total(xs, EntryMinutes))
      && r.billableHours == Hours(Total(xs, BillableMinutes))
  {
    var start := if weekStart.Some? then weekStart.value else DefaultWeekStart(now);
    r := SummarizeWeek(s, org, userId, start);
    if weekStart.None? {
      forall i | 0 <= i < |s.entries| && DayNumber(WeekStart(now)) <= DayNumber(s.entries[i].date) <= DayNumber(WeekStart(now)) + 6
        ensures start <= s.entries[i].date <= WeekEnd(start)
      {
        DefaultWeekCoversWeek(now, s.entries[i].date);
      }
    }
  }

  /** The body of `getWeeklySummary` once the start is fixed: the week runs to
      the last millisecond of its seventh day; one pass over the week's entries
      fills `dailySummary` keyed by day and `projectSummary` keyed by project,
      the latter listed in order of first appearance. */
  method SummarizeWeek(s: Store, org: Id, userId: Option<Id>, start: int)
    returns (r: WeeklySummary)
    ensures r.weekStart == start
    ensures r.weekEnd == WeekEnd(r.weekStart)
    ensures var xs := WeekEntries(s, org, userId, r.weekStart, r.weekEnd);
      && DailyIs(r.dailySummary, xs)
      && r.projectSummary == ProjectBuckets(xs, KeysOf(xs, ProjectKey))
      && r.totalHours == Hours(Total(xs, EntryMinutes))
      && r.billableHours == Hours(Total(xs, BillableMinutes))
  {
    var end := WeekEnd(start);
    var entries := WeekEntries(s, org, userId, start, end);
    var daily: map<int, DayBucket> := map[];
    var projects: map<Id, ProjectBucket> := map[];
    var order: seq<Id> := [];
    for i := 0 to |entries|
      invariant DailyIs(daily, entries[..i])
      invariant ProjectsAre(projects, order, entries[..i])
    {
      var e := entries[i];
      assert entries[..i + 1] == entries[..i] + [e];
      DayStep(entries[..i], e, daily);
      ProjectStep(entries[..i], e, order, projects);
      var day := if DayKey(e) in daily then daily[DayKey(e)] else DayBucket(0, 0, []);
      daily := daily[DayKey(e) := AddToDay(day, e)];
      if e.projectId !in projects {
        order := order + [e.projectId];
      }
      var project := if e.projectId in projects then projects[e.projectId] else ProjectBucket(e.projectId, 0, 0);
      projects := projects[e.projectId := AddToProject(project, e)];
    }
    assert entries[..|entries|] == entries;
    var totalMinutes := Total(entries, EntryMinutes);
    var billableMinutes := Total(Filter(entries, IsBillable), EntryMinutes);
    BillableSum(entries);
    var summary := ValuesInOrder(projects, order);
    r := WeeklySummary(start, end, Hours(totalMinutes), Hours(billableMinutes), daily, summary);
  }

  // ------------------------------------------------- weekly summary facts

  /** The sum of the day totals over the days `ks` (a day without a bucket adds
      nothing). */
  function SumDayTotals(daily: map<int, DayBucket>, ks: seq<int>): nat {
    if ks == [] then 0
    else (if ks[0] in daily then daily[ks[0]].totalMinutes else 0) + SumDayTotals(daily, ks[1..])
  }

  function SumProjectTotals(ps: seq<ProjectBucket>): nat {
    if ps == [] then 0 else ps[0].totalMinutes + SumProjectTotals(ps[1..])
  }

  lemma {:induction false} SumDayTotalsIsSumGroups(xs: seq<Entry>, daily: map<int, DayBucket>, ks: seq<int>)
    requires forall j :: 0 <= j < |ks| ==> ks[j] in daily && daily[ks[j]] == DayBucketOf(xs, ks[j])
    ensures SumDayTotals(daily, ks) == SumGroups(xs, DayKey, ks, EntryMinutes)
  {
    if ks != [] {
      SumDayTotalsIsSumGroups(xs, daily, ks[1..]);
    }
  }

  lemma {:induction false} SumProjectTotalsIsSumGroups(xs: seq<Entry>, ks: seq<Id>)
    ensures SumProjectTotals(ProjectBuckets(xs, ks)) == SumGroups(xs, ProjectKey, ks, EntryMinutes)
  {
    if ks != [] {
      SumProjectTotalsIsSumGroups(xs, ks[1..]);
    }
  }

  /** Conservation: the day totals and the project totals both add up to the
      week's total minutes, which is 60 times its total hours. */
  lemma WeeklyConservation(xs: seq<Entry>, r: WeeklySummary)
    requires DailyIs(r.dailySummary, xs)
    requires r.projectSummary == ProjectBuckets(xs, KeysOf(xs, ProjectKey))
    requires r.totalHours == Hours(Total(xs, EntryMinutes))
    ensures SumDayTotals(r.dailySummary, KeysOf(xs, DayKey)) == Total(xs, EntryMinutes)
    ensures SumProjectTotals(r.projectSummary) == Total(xs, EntryMinutes)
    ensures SumDayTotals(r.dailySummary, KeysOf(xs, DayKey)) as real == 60.0 * r.totalHours
  {
    DayTotalsConserve(xs, r.dailySummary);
    ProjectTotalsConserve(xs);
  }

  lemma DayTotalsConserve(xs: seq<Entry>, daily: map<int, DayBucket>)
    requires DailyIs(daily, xs)
    ensures SumDayTotals(daily, KeysOf(xs, DayKey)) == Total(xs, EntryMinutes)
  {
    var ks := KeysOf(xs, DayKey);
    assert forall k :: k in daily <==> k in ks;
    assert forall k :: k in daily ==> daily[k] == DayBucketOf(xs, k);
    forall j | 0 <= j < |ks| ensures ks[j] in daily && daily[ks[j]] == DayBucketOf(xs, ks[j]) {
      var k := ks[j];
      assert k in ks;
      assert k in daily;
    }
    SumDayTotalsIsSumGroups(xs, daily, ks);
    KeysOfCovers(xs, DayKey);
    GroupsPartitionTotal(xs, DayKey, KeysOf(xs, DayKey), EntryMinutes);
  }

  lemma ProjectTotalsConserve(xs: seq<Entry>)
    ensures SumProjectTotals(ProjectBuckets(xs, KeysOf(xs, ProjectKey))) == Total(xs, EntryMinutes)
  {
    KeysOfCovers(xs, ProjectKey);
    SumProjectTotalsIsSumGroups(xs, KeysOf(xs, ProjectKey));
    GroupsPartitionTotal(xs, ProjectKey, KeysOf(xs, ProjectKey), EntryMinutes);
  }

  /** Each selected entry is listed under exactly one day: its own. */
  lemma EntryInOneDay(xs: seq<Entry>, r: WeeklySummary, i: nat, k: int)
    requires i < |xs|
    requires DailyIs(r.dailySummary, xs)
    ensures DayKey(xs[i]) in r.dailySummary
    ensures k in r.dailySummary ==> (xs[i] in r.dailySummary[k].entries <==> k == DayKey(xs[i]))
  {
    KeysOfCovers(xs, DayKey);
    InOnlyIff(xs, DayKey, k, i);
  }

  /** Billable minutes never exceed total minutes, in any bucket. */
  lemma BucketsBillableBounded(xs: seq<Entry>, k: int, p: Id)
    ensures DayBucketOf(xs, k).billableMinutes <= DayBucketOf(xs, k).totalMinutes
    ensures ProjectBucketOf(xs, p).billableMinutes <= ProjectBucketOf(xs, p).totalMinutes
  {
    BillableSum(Only(xs, DayKey, k));
    BillableSum(Only(xs, ProjectKey, p));
  }

  /** There is one project key per distinct project id of the entries. */
  lemma ProjectKeysCount(xs: seq<Entry>, ks: seq<Id>)
    requires ks == KeysOf(xs, ProjectKey)
    ensures |ks| == |set i | 0 <= i < |xs| :: xs[i].projectId|
  {
    DistinctCard(ks);
    var a := set j | 0 <= j < |ks| :: ks[j];
    var b := set i | 0 <= i < |xs| :: xs[i].projectId;
    forall p | p in a ensures p in b {
      var j :| 0 <= j < |ks| && ks[j] == p;
      KeysOfSound(xs, ProjectKey, j);
    }
    forall p | p in b ensures p in a {
      var i :| 0 <= i < |xs| && xs[i].projectId == p;
      KeysOfCovers(xs, ProjectKey);
      assert ProjectKey(xs[i]) == p;
    }
    assert a == b;
  }

  /** The project keys are the distinct project ids of the entries. */
  lemma ProjectKeysAreProjects(xs: seq<Entry>, ks: seq<Id>)
    requires ks == KeysOf(xs, ProjectKey)
    ensures |ks| == |set i | 0 <= i < |xs| :: xs[i].projectId|
    ensures forall j :: 0 <= j < |ks| ==> exists i :: 0 <= i < |xs| && xs[i].projectId == ks[j]
    ensures forall i :: 0 <= i < |xs| ==> xs[i].projectId in ks
  {
    ProjectKeysCount(xs, ks);
    forall j | 0 <= j < |ks| ensures exists i :: 0 <= i < |xs| && xs[i].projectId == ks[j] {
      KeysOfSound(xs, ProjectKey, j);
    }
    KeysOfCovers(xs, ProjectKey);
    forall i | 0 <= i < |xs| ensures xs[i].projectId in ks {
      assert ProjectKey(xs[i]) == xs[i].projectId;
    }
  }

  /** One project bucket per distinct project among the entries, each project
      once; the bucket of every entry's project is in the list, and every bucket
      is the project of some entry. */
  lemma OneBucketPerProject(xs: seq<Entry>, ps: seq<ProjectBucket>)
    requires ps == ProjectBuckets(xs, KeysOf(xs, ProjectKey))
    ensures |ps| == |set i | 0 <= i < |xs| :: xs[i].projectId|
    ensures forall a, b :: 0 <= a < b < |ps| ==> ps[a].projectId != ps[b].projectId
    ensures forall i :: 0 <= i < |xs| ==> ProjectBucketOf(xs, xs[i].projectId) in ps
    ensures forall j :: 0 <= j < |ps| ==> exists i :: 0 <= i < |xs| && xs[i].projectId == ps[j].projectId
  {
    ProjectKeysAreProjects(xs, KeysOf(xs, ProjectKey));
  }
}
