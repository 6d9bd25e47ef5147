# zyra core, modelled in Dafny

zyra is a project-management and time-tracking application. It has a NestJS
back end over a Prisma database and a Next.js front end. This project models
its core and proves properties of that model. The parts modelled are:

- the **tasks service**:
  - guarded create, update and delete;
  - the trailing `orderIndex` a new task gets in its (project, status) lane;
  - the all-or-nothing bulk reorder;
  - the kanban board's four status lanes;
- the **timesheets service**:
  - guarded entry create and update;
  - the list with its minute sums;
  - the weekly summary, which buckets the week's entries per day and per
    project;
  - the Monday that starts a week;
- the **projects service**:
  - project codes unique within an organization;
  - soft delete through `active`;
  - the project summary, with its per-status task counts and its remaining
    budgets floored at zero;
- the **create DTOs**: their enums and field bounds, as predicates that the
  services take as preconditions;
- the **front-end helpers**:
  - the timer widget's `HH:MM:SS` display and its start/pause/stop state
    machine;
  - the timesheet page: `h:mm` hours, the week's days, the quick timer, and
    the weekly grid whose rows and columns add up;
  - the entry form's hours/minutes split and join;
  - the task form's parent candidates and its submit normalisation.

Modules:
- `Store` holds the database: one table per entity, and the
  organization-scoped lookups.
- `Grouping` holds the group-and-sum shape that the weekly summary and the
  task counts share.
- `Calendar` holds day arithmetic on instants.
- `Text` holds decimal rendering and two-digit padding.
- `Sorting` holds an insertion sort that stands for Prisma's `orderBy`.
- `FormFields` holds the text-field idioms the two forms share: `a || b`,
  `s || undefined` and `split('T')[0]`.
- The other modules follow the source files one to one.

Modelling decisions:
- **Tables are sequences.** Each table is a sequence of rows, with
  unique-id predicates, rather than a map from id to row. The list, board,
  grouping and "first appearance" orders all need a deterministic enumeration,
  and a sequence provides one.
- **Service I/O.**
  - A service call is a function from the store to a `Result`, which is either
    the new store and the returned row, or the HTTP exception with its message.
  - The caller's organization is always a parameter.
  - A Prisma `$transaction` is an all-or-nothing update of the store.
  - New ids and the clock (`new Date()`, `Date.now()`) are parameters.
- **Empty strings.** The DTOs model optional fields as `Option`s: a field is
  either given, with its value, or absent. `@IsOptional() @IsString()` lets
  the empty string through, and JavaScript treats `""` as falsy. The predicate
  `Wrappers.Given` is that truth test: a text that is present and not empty.
  Every `if (dto.parentId)`, `if (dto.taskId)` and `if (dto.clientId)` guard
  and every `...(x && { x })` list filter is modelled through it. So an id
  given as `""` skips the existence check, and a filter given as `""` does not
  restrict the list. The front end's list pages send exactly such empty
  filters by default.
- **Dates.**
  - Instants are integer milliseconds.
  - The local time zone is taken to be UTC, so a local calendar day is the
    `toISOString()` day.
  - Day 0 (1970-01-01) is a Thursday.
  - The week's day key is the day number.
- **Quantities.**
  - Minutes are naturals.
  - Hours and money are exact reals.
  - `Math.round(x * 100) / 100` is not applied.
- **Text search.** A case-insensitive `contains` depends on the database
  collation, so it is a parameter.
- **Validation.** The global validation pipe is not part of this model. It is
  assumed to run before every service call, so each service requires its DTO's
  validity predicate, and undeclared properties are assumed stripped.
- **Database defaults.** The Prisma schema is not part of this model.
  - The database defaults are taken to be: task status TODO, priority MEDIUM
    and `tags` the empty list, project status PLANNED, `active` true, entry
    `billable` true.
  - No unique constraint of the database is assumed. The code uniqueness of
    projects is what the service enforces.
  - `orderBy` on a status compares the stored strings by character code.
- **Update bodies.** `UpdateTaskDto` (`update-task.dto.ts:5`) is the create
  body without `projectId`, each field optional. The update DTO of projects is
  not part of this model. It is modelled the same way: the create fields, each
  optional. An update writes each given field, the empty text `""` included,
  as the spread does, and keeps each absent (`undefined`) one. An explicit
  `null` has no counterpart in the model (see Left out).
- **Validation predicates.** The class-validator decorators are predicates
  of the DTO modules, which the services take as preconditions:
  - `TaskDto.ValidFields`, `ValidCreateTask` and `ValidUpdateTask`
    (`create-task.dto.ts:46-100`): the two enums, at most 10 tags, a
    non-negative estimate and at most 20 assignees;
  - `ProjectDto.IsHexDigit`, `IsHexColor`, `ValidFields`,
    `ValidCreateProject` and `ValidUpdateProject` (`create-project.dto.ts:40-80`):
    the status enum, a non-negative budget in hours, a budget amount and a
    rate that are non-negative with at most two decimals, and `@IsHexColor()`;
  - `EntryDto.TwoDecimals`, `ValidAmount`, `ValidMinutes`, `ValidCreateEntry`
    and `ValidUpdateEntry` (`create-timesheet-entry.dto.ts:23-42`): minutes
    from 1 to 1440 and a non-negative rate with at most two decimals.
  Their partner lemmas are the `ParseStatus…`/`ParsePriority…` round trips,
  `HashOptional` and `TwoDecimalsIsCents` in the table below.
- **Object key order.** A JavaScript object filled by a `forEach` enumerates
  its keys in order of first insertion; `KeysOf` models this. The order of
  Prisma's `groupBy` answer is unspecified; the model takes order of first
  appearance.

The weekly summary's default start is modelled twice. The comment "Default to
current week if no week specified" (`timesheets.service.ts:256`) and the
timesheet page's own `getWeekStart`, which sets the Monday to 00:00
(`page.tsx:17-24`), describe the whole current week. The service's
`getWeekStart(new Date())` keeps the current time of day instead.
`GetWeeklySummary` follows the code, and `IntendedGetWeeklySummary` uses the
midnight start; see Findings.

## Model

| member | source | states |
|---|---|---|
| Calendar.Weekday | apps/backend/src/timesheets/timesheets.service.ts:331 | `getDay()` is a weekday 0..6, counted from the Thursday of day 0 |
| Calendar.TimeOfDay | apps/frontend/src/app/app/timesheets/page.tsx:22 | the time of day is within one day |
| Calendar.ShiftDays | apps/frontend/src/app/app/timesheets/page.tsx:61-62 | moving an instant `k` whole days changes its day number by `k` and keeps its time of day |
| Calendar.WeekStart | apps/backend/src/timesheets/timesheets.service.ts:329-333 | the result is a Monday 0..6 days before the input, at the same time of day; a Sunday maps to the Monday six days earlier |
| Calendar.WeekStartMidnight | apps/frontend/src/app/app/timesheets/page.tsx:17-24 | the result is midnight of that same Monday, and the input lies in the seven days from it |
| Calendar.WeekEnd | apps/backend/src/timesheets/timesheets.service.ts:258-260 | the week's end is the last millisecond of the sixth day after the start's day |
| Text.DigitChar | apps/frontend/src/components/timesheets/timer-widget.tsx:37 | a digit below 10 renders as a decimal digit character |
| Text.Show | apps/frontend/src/components/timesheets/timer-widget.tsx:37 | `toString()` of a natural is a non-empty string of digits |
| Text.ParseShow | apps/frontend/src/components/timesheets/timer-widget.tsx:37 | reading the digits of `toString()` back gives the number |
| Text.Pad2 | apps/frontend/src/components/timesheets/timer-widget.tsx:37 | `padStart(2, '0')` is at least two characters and ends with its input |
| Text.LeadingZero | apps/frontend/src/components/timesheets/timer-widget.tsx:37 | a leading zero does not change the value read |
| Text.ParsePad2 | apps/frontend/src/components/timesheets/timer-widget.tsx:37 | padding keeps the text all digits and keeps its value |
| Text.ShowPad2 | apps/frontend/src/app/app/timesheets/page.tsx:47 | a number below 100, padded, is exactly two digits that read back as the number |
| Sorting.Insert | apps/backend/src/tasks/tasks.service.ts:141-145 | inserting into a sorted list keeps it sorted and adds exactly the one element |
| Sorting.Sort | apps/backend/src/tasks/tasks.service.ts:141-145 | an `orderBy` result is sorted and a permutation of the rows |
| Sorting.LexLeTotal | apps/backend/src/tasks/tasks.service.ts:142 | any two statuses are comparable in ascending string order |
| Sorting.LexLeTransitive | apps/backend/src/tasks/tasks.service.ts:142 | ascending string order is transitive |
| Sorting.LexLeAntisymmetric | apps/backend/src/tasks/tasks.service.ts:142 | two strings ordered both ways are equal |
| TaskDto.ParseStatus | apps/backend/src/tasks/dto/create-task.dto.ts:13-18 | a string is accepted as a status exactly when it is one of TODO, IN_PROGRESS, IN_REVIEW, DONE |
| TaskDto.ParseStatusRoundTrip | apps/backend/src/tasks/dto/create-task.dto.ts:13-18 | parsing a status name gives the status, and only its name parses to it |
| TaskDto.ParsePriority | apps/backend/src/tasks/dto/create-task.dto.ts:20-25 | a string is accepted as a priority exactly when it is one of LOW, MEDIUM, HIGH, URGENT |
| TaskDto.ParsePriorityRoundTrip | apps/backend/src/tasks/dto/create-task.dto.ts:20-25 | parsing a priority name gives the priority, and only its name parses to it |
| TaskDto.CreatedStatus | apps/backend/src/tasks/dto/create-task.dto.ts:46-53 | a new task has the status it was given, TODO when none was |
| TaskDto.CreatedPriority | apps/backend/src/tasks/dto/create-task.dto.ts:55-62 | a new task has the priority it was given, MEDIUM when none was |
| TaskDto.OrderIndexUnbounded | apps/backend/src/tasks/dto/create-task.dto.ts:97-100 | any integer order index, a negative one included, passes validation |
| ProjectDto.ParseProjectStatus | apps/backend/src/projects/dto/create-project.dto.ts:13-19 | a string is accepted as a project status exactly when it is one of the five values |
| ProjectDto.ParseProjectStatusRoundTrip | apps/backend/src/projects/dto/create-project.dto.ts:13-19 | parsing a project status name gives the status, and only its name parses to it |
| ProjectDto.CreatedProjectStatus | apps/backend/src/projects/dto/create-project.dto.ts:40-47 | a new project has the status it was given, PLANNED when none was |
| ProjectDto.HashOptional | apps/backend/src/projects/dto/create-project.dto.ts:77-80 | `@IsHexColor()` accepts a colour with a leading `#` exactly when it accepts it without one |
| ProjectDto.HexColorExamples | apps/backend/src/projects/dto/create-project.dto.ts:77-80 | three, six and eight hex digits pass; five digits or a colour name do not |
| EntryDto.CreatedBillable | apps/backend/src/timesheets/dto/create-timesheet-entry.dto.ts:33-36 | a new entry is billable unless the body says `false` |
| EntryDto.RateDecimals | apps/backend/src/timesheets/dto/create-timesheet-entry.dto.ts:39-42 | a rate with three decimals is refused and one with two is accepted |
| EntryDto.TwoDecimalsIsCents | apps/backend/src/timesheets/dto/create-timesheet-entry.dto.ts:39-42 | a value has at most two decimal places exactly when it is a whole number of hundredths |
| Store.ProjectIn | apps/backend/src/projects/projects.service.ts:190-192 | a lookup by id and organization finds a row with both, and finds nothing only when no such row exists |
| Store.TaskIn | apps/backend/src/tasks/tasks.service.ts:307-309 | as ProjectIn, for tasks |
| Store.TaskInProject | apps/backend/src/tasks/tasks.service.ts:24-30 | a lookup by id, organization and project finds a row with all three, or proves none exists |
| Store.ClientIn | apps/backend/src/projects/projects.service.ts:24-29 | as ProjectIn, for clients |
| Store.EntryIn | apps/backend/src/timesheets/timesheets.service.ts:186-188 | as ProjectIn, for entries |
| Store.FoundUserIds | apps/backend/src/tasks/tasks.service.ts:39-44 | `findMany({ id: { in: ids } })` finds only ids that were asked for |
| Store.UserCountCheck | apps/backend/src/tasks/tasks.service.ts:38-48 | the count check passes exactly when every id is a user of the organization and no id is repeated |
| Store.FoundTaskIds | apps/backend/src/tasks/tasks.service.ts:394-399 | the reorder lookup finds only ids that were asked for |
| Store.TaskCountCheck | apps/backend/src/tasks/tasks.service.ts:393-403 | the count check passes exactly when every id is a task of the organization and no id is repeated |
| Store.TotalPages | apps/backend/src/tasks/tasks.service.ts:176 | `Math.ceil(total / limit)` is the least page count whose pages hold the total |
| Store.PageOf | apps/backend/src/tasks/tasks.service.ts:139-140 | `skip`/`take` gives at most `limit` rows, the consecutive rows from offset (page−1)·limit, and exactly as many as remain up to the limit |
| Store.PageOfSorted | apps/backend/src/tasks/tasks.service.ts:136-145 | a page of a sorted list is sorted and holds only listed rows |
| Store.OrderedPage | apps/backend/src/tasks/tasks.service.ts:136-145 | `orderBy` then `skip`/`take` gives a listed page: the slice of an ordering of exactly the rows, sorted, at most `limit` long and drawn from the rows |
| Store.PageAllRows | apps/backend/src/tasks/tasks.service.ts:136-145 | when all rows fit in the limit, the first listed page holds exactly the rows |
| Store.PageFront | apps/backend/src/tasks/tasks.service.ts:136-145 | every row left off the first listed page is ordered after every row on it |
| Store.Replace | apps/backend/src/tasks/tasks.service.ts:351-352 | `update({ where: { id } })`: the row with the id is rewritten and every other row is kept in place |
| Store.WithoutId | apps/backend/src/tasks/tasks.service.ts:444-446 | `delete({ where: { id } })`: no remaining row has the id, every other row remains, and no row is added |
| Grouping.KeysOf | apps/backend/src/timesheets/timesheets.service.ts:292-314 | the keys of an object filled by a `forEach` are distinct |
| Grouping.KeysOfMembers | apps/backend/src/timesheets/timesheets.service.ts:297-306 | a key is present exactly when some row has it |
| Grouping.KeysOfCovers | apps/backend/src/timesheets/timesheets.service.ts:297-306 | every row's key is present |
| Grouping.KeysOfSound | apps/backend/src/timesheets/timesheets.service.ts:297-306 | every key present is some row's key |
| Grouping.TotalSnoc | apps/backend/src/timesheets/timesheets.service.ts:316 | extending the rows by one adds that row's weight to the sum |
| Grouping.OnlySnoc | apps/backend/src/timesheets/timesheets.service.ts:292-302 | extending the rows by one extends exactly the group of its key |
| Grouping.KeysOfSnoc | apps/backend/src/timesheets/timesheets.service.ts:297-299 | a new row adds its key at the end when the key is new, and nothing otherwise |
| Grouping.SumGroupsSnoc | apps/backend/src/timesheets/timesheets.service.ts:300-312 | over distinct keys, a new row adds its weight to the group sums exactly when its key is listed |
| Grouping.GroupsPartitionTotal | apps/backend/src/timesheets/timesheets.service.ts:292-317 | when every row's key is among distinct keys, the group totals add up to the grand total |
| Grouping.TotalMonotone | apps/backend/src/timesheets/timesheets.service.ts:300-301 | summing a weight that is never larger gives a sum that is not larger |
| Grouping.InOnlyIff | apps/backend/src/timesheets/timesheets.service.ts:302 | a row is in the group of exactly its own key |
| Grouping.OnlyCommute | apps/frontend/src/app/app/timesheets/page.tsx:236-240 | taking a day's entries and then a project's gives the same entries as the other way round |
| TasksService.MaxOrderIndex | apps/backend/src/tasks/tasks.service.ts:56-63 | the largest order index of a non-empty lane is one of its indices and bounds all of them |
| TasksService.NextOrderIndex | apps/backend/src/tasks/tasks.service.ts:53-65 | the next index exceeds every index in the lane, is 0 for an empty lane, and is the lane's maximum plus one otherwise |
| TasksService.AssigneeSet | apps/backend/src/tasks/tasks.service.ts:73-75 | a user is connected exactly when its id is in the given list; none when the list is absent |
| TasksService.Create | apps/backend/src/tasks/tasks.service.ts:9-106 | NotFound "Project not found" for a project outside the organization, then NotFound "Parent task not found" for a given (non-empty) parent outside that project; every failure is a NotFound; success exactly when project, parent (checked only when non-empty, same organization and project) and assignees (count check) are found; the new task carries the given title, description, parent, tags (none when absent), due date, estimate, exactly the given assignees, the default or given status and priority, the caller's organization and the trailing or explicit index |
| TasksService.NextAfterAppend | apps/backend/src/tasks/tasks.service.ts:53-65 | appending a task at the next index makes the lane's next index one more than it |
| TasksService.CreateAppendsToLane | apps/backend/src/tasks/tasks.service.ts:53-72 | a task created without an index is appended after every task of its lane, and the other tasks are untouched |
| TasksService.SuccessiveCreates | apps/backend/src/tasks/tasks.service.ts:53-72 | two creates in the same lane without explicit indices get consecutive indices |
| TasksService.ListLeTotalPreorder | apps/backend/src/tasks/tasks.service.ts:141-145 | status asc, orderIndex asc, createdAt desc is a total preorder |
| TasksService.FindAll | apps/backend/src/tasks/tasks.service.ts:108-178 | the page is the `skip`/`take` slice of an ordering, in list order, of exactly the organization's tasks that match every non-empty filter (an empty one is dropped, as `...(x && { x })`); it holds only such tasks, in order, at most `limit` of them; `total` counts all matches; `totalPages` is the ceiling; page and limit are returned as given |
| TasksService.EmptyFiltersMatchAll | apps/backend/src/tasks/tasks.service.ts:117-135 | with every filter sent as the empty string, as the task page does by default, the list selects every task of the organization |
| TasksService.ListIsTenantScoped | apps/backend/src/tasks/tasks.service.ts:117-118 | no page shows another organization's task |
| TasksService.FirstPageOfList | apps/backend/src/tasks/tasks.service.ts:136-145 | the first page holds every match when they fit in one page, and otherwise no match left out comes before a listed one in list order |
| TasksService.KanbanLeTotalPreorder | apps/backend/src/tasks/tasks.service.ts:198-201 | status asc, orderIndex asc is a total preorder |
| TasksService.WithStatus | apps/backend/src/tasks/tasks.service.ts:226-230 | a lane holds only tasks with its status |
| TasksService.WithStatusPrefix | apps/backend/src/tasks/tasks.service.ts:226-230 | one more task of the loop extends its lane, and only its lane |
| TasksService.WithStatusCount | apps/backend/src/tasks/tasks.service.ts:226-230 | a task occurs in its status's lane as often as in the list, and in no other lane |
| TasksService.WithStatusPermutation | apps/backend/src/tasks/tasks.service.ts:193-230 | reordering the fetched tasks does not change which tasks land in a lane |
| TasksService.WithStatusSorted | apps/backend/src/tasks/tasks.service.ts:198-230 | a lane taken from the board-ordered list is in ascending orderIndex |
| TasksService.GetKanbanBoard | apps/backend/src/tasks/tasks.service.ts:180-240 | NotFound exactly for a project outside the organization, and the board exactly for a project inside it, carrying its id, name and code; each lane is exactly the project's tasks with that status, in ascending orderIndex |
| TasksService.BoardLanes | apps/backend/src/tasks/tasks.service.ts:219-230 | the pushes leave every lane sorted and equal, as a multiset, to the tasks of that status |
| TasksService.BoardPlacement | apps/backend/src/tasks/tasks.service.ts:226-230 | a project task is on the lane of its status, on no other lane, and on none when its status is not one of the four |
| TasksService.Patched | apps/backend/src/tasks/tasks.service.ts:349-358 | each of title, description, parent, status, priority, tags, due date, estimate and order index is the given value when given and the stored one when absent; given assignees replace the set with exactly the listed ids, absent ones keep it; id, organization, project and creation time are kept |
| TasksService.Update | apps/backend/src/tasks/tasks.service.ts:306-389 | NotFound "Task not found" for a missing task; NotFound "Parent task not found" for a non-empty parent outside the task's project; Forbidden "Task cannot be its own parent" for the direct self-parent; an empty parent skips both checks; success exactly when a non-empty parent is in the task's project and is not the task itself, and the assignees pass the count check; then the one row is patched |
| TasksService.UpdateTouchesOneTask | apps/backend/src/tasks/tasks.service.ts:351-358 | an update, a change of status included, leaves every other task and every other table unchanged |
| TasksService.SubtaskCount | apps/backend/src/tasks/tasks.service.ts:422-426 | the subtask count is positive exactly when some task names this one as parent |
| TasksService.EntryCount | apps/backend/src/tasks/tasks.service.ts:422-426 | the entry count is positive exactly when some entry is booked on the task |
| TasksService.Remove | apps/backend/src/tasks/tasks.service.ts:418-447 | NotFound for a missing task; Forbidden "Cannot delete task with subtasks", checked first, then Forbidden "Cannot delete task with time entries"; the task is deleted only when both counts are 0 |
| TasksService.RemoveDeletesOnlyTheTask | apps/backend/src/tasks/tasks.service.ts:444-446 | after a removal the task is gone and every other task, entry and project remains |
| TasksService.ItemIds | apps/backend/src/tasks/tasks.service.ts:393 | the listed ids, in order |
| TasksService.SetOrder | apps/backend/src/tasks/tasks.service.ts:408-411 | one update sets the index of the task with the item's id and keeps every other task |
| TasksService.ReorderedEffect | apps/backend/src/tasks/tasks.service.ts:406-413 | with distinct ids, each listed task takes its paired index and every unlisted task is unchanged |
| TasksService.Database.constructor | apps/backend/src/tasks/tasks.service.ts:7 | the service starts over the given store |
| TasksService.Database.UpdateOrder | apps/backend/src/tasks/tasks.service.ts:391-416 | all or nothing: NotFound "One or more tasks not found", with the store unchanged, unless every id is the organization's and none repeats; otherwise each listed task takes its index and nothing else changes |
| TimesheetsService.Create | apps/backend/src/timesheets/timesheets.service.ts:9-68 | NotFound "Project not found" for a project outside the organization, NotFound "Task not found" for a given non-empty task outside that project (an empty one is not checked); otherwise the entry is stored with the caller's organization and user |
| TimesheetsService.NewestFirstTotalPreorder | apps/backend/src/timesheets/timesheets.service.ts:96-99 | date desc, createdAt desc is a total preorder |
| TimesheetsService.BillableSum | apps/backend/src/timesheets/timesheets.service.ts:128 | summing the billable entries' minutes is summing billable minutes over all entries, and it never exceeds the total |
| TimesheetsService.Summarize | apps/backend/src/timesheets/timesheets.service.ts:125-134 | the summary sums the page's minutes and billable minutes, billable ≤ total, and the hours are minutes / 60 |
| TimesheetsService.FindAll | apps/backend/src/timesheets/timesheets.service.ts:70-144 | the page is the `skip`/`take` slice of a newest-first ordering of exactly the organization's entries matching the non-empty user and project filters (and the date range when both ends are given); it holds only such entries, newest first, at most `limit`; `total` counts all matches; page and limit are returned as given; the summary is over the returned page only |
| TimesheetsService.FirstPageOfList | apps/backend/src/timesheets/timesheets.service.ts:93-98 | the first page holds every match when they fit in one page, and otherwise no match left out is newer than a listed one |
| TimesheetsService.HalfRangeIgnored | apps/backend/src/timesheets/timesheets.service.ts:83-88 | without both `from` and `to`, an entry's date does not affect whether it matches |
| TimesheetsService.EmptyFiltersIgnored | apps/backend/src/timesheets/timesheets.service.ts:79-89 | a user or project filter sent as the empty string matches the same entries as an absent one |
| TimesheetsService.PatchedEntry | apps/backend/src/timesheets/timesheets.service.ts:209-216 | task, date, billable, rate and notes are the given value when given and the stored one when absent, and so is the duration; id, organization, user, project and creation time never change |
| TimesheetsService.Update | apps/backend/src/timesheets/timesheets.service.ts:185-239 | NotFound "Timesheet entry not found" for an entry outside the organization; NotFound "Task not found" for a non-empty task outside the entry's existing project (an empty one is not checked); otherwise the one row is patched |
| TimesheetsService.UpdateKeepsProject | apps/backend/src/timesheets/timesheets.service.ts:194-216 | after an update the entry is on its old project, and any non-empty task it now has is in that project |
| TimesheetsService.Remove | apps/backend/src/timesheets/timesheets.service.ts:241-253 | NotFound "Timesheet entry not found" exactly for an entry outside the organization; otherwise the new store is the old one with only the entry deleted: every other table unchanged, every other entry kept and none added |
| TimesheetsService.DefaultWeekStartAsWritten | apps/backend/src/timesheets/timesheets.service.ts:329-333 | the default start as written: the current week's Monday at the current time of day |
| TimesheetsService.DefaultWeekMissesMondayMorning | apps/backend/src/timesheets/timesheets.service.ts:257-268 | at 10:00 on a Monday, an entry at that Monday's midnight falls before the as-written start |
| TimesheetsService.DefaultWeekStart | apps/backend/src/timesheets/timesheets.service.ts:257 | the corrected default: midnight of the current week's Monday, with now within the seven days from it |
| TimesheetsService.DefaultWeekCoversWeek | apps/backend/src/timesheets/timesheets.service.ts:257-268 | with the corrected default, every instant of the current Monday-to-Sunday week lies between start and end |
| TimesheetsService.WeekEntries | apps/backend/src/timesheets/timesheets.service.ts:262-269 | the week's entries are exactly the organization's entries (and the user's, when a non-empty user is given) dated from start through end inclusive |
| TimesheetsService.ProjectBuckets | apps/backend/src/timesheets/timesheets.service.ts:325 | one bucket per listed project, in that order, each summing its project's entries |
| TimesheetsService.ValuesInOrder | apps/backend/src/timesheets/timesheets.service.ts:325 | `Object.values` lists the values in key insertion order |
| TimesheetsService.DayBucketSnoc | apps/backend/src/timesheets/timesheets.service.ts:297-302 | one more entry adds its minutes (billable ones also to billable) and itself to its day's bucket only |
| TimesheetsService.ProjectBucketSnoc | apps/backend/src/timesheets/timesheets.service.ts:305-313 | one more entry adds its minutes to its project's bucket only |
| TimesheetsService.DayBucketEmpty | apps/backend/src/timesheets/timesheets.service.ts:297-299 | a day no entry falls on has the fresh bucket `{0, 0, []}` |
| TimesheetsService.ProjectBucketEmpty | apps/backend/src/timesheets/timesheets.service.ts:305-310 | a project no entry has gives a zero bucket |
| TimesheetsService.DayStep | apps/backend/src/timesheets/timesheets.service.ts:293-302 | one `forEach` step keeps the day dictionary equal to the buckets of the entries seen |
| TimesheetsService.ProjectStep | apps/backend/src/timesheets/timesheets.service.ts:294-313 | one step keeps the project dictionary and its key order equal to the buckets of the entries seen |
| TimesheetsService.GetWeeklySummary | apps/backend/src/timesheets/timesheets.service.ts:255-327 | as written: the week is the given start, or by default `getWeekStart(new Date())` at the current time of day, through WeekEnd; `dailySummary` holds one bucket per day the week's entries fall on; `projectSummary` lists one bucket per project in order of first appearance; the hours are the minute sums / 60; a user given as `""` does not restrict the entries |
| TimesheetsService.IntendedGetWeeklySummary | apps/backend/src/timesheets/timesheets.service.ts:255-327 | with the midnight default start: the same buckets, and every entry of the organization (and of the user, when a non-empty one is given) dated on a day of the current week is summarised |
| TimesheetsService.SummarizeWeek | apps/backend/src/timesheets/timesheets.service.ts:258-327 | for a fixed start, the week runs to WeekEnd and the day buckets, project buckets and hour totals are those of the organization's entries (the user's, when a non-empty one is given) dated within it |
| TimesheetsService.SumDayTotalsIsSumGroups | apps/backend/src/timesheets/timesheets.service.ts:300 | the day totals are the per-day group sums |
| TimesheetsService.SumProjectTotalsIsSumGroups | apps/backend/src/timesheets/timesheets.service.ts:312 | the project totals are the per-project group sums |
| TimesheetsService.WeeklyConservation | apps/backend/src/timesheets/timesheets.service.ts:292-323 | the day totals and the project totals each add up to the week's total minutes, which is 60 × totalHours |
| TimesheetsService.EntryInOneDay | apps/backend/src/timesheets/timesheets.service.ts:293-302 | every selected entry is listed under its own day and under no other |
| TimesheetsService.BucketsBillableBounded | apps/backend/src/timesheets/timesheets.service.ts:300-313 | in every day and project bucket, billable minutes never exceed total minutes |
| TimesheetsService.ProjectKeysCount | apps/backend/src/timesheets/timesheets.service.ts:305-311 | there are as many project keys as distinct project ids among the entries |
| TimesheetsService.ProjectKeysAreProjects | apps/backend/src/timesheets/timesheets.service.ts:305-311 | the project keys are exactly the entries' distinct project ids |
| TimesheetsService.OneBucketPerProject | apps/backend/src/timesheets/timesheets.service.ts:305-325 | `projectSummary` has exactly one bucket per distinct project of the week's entries, no two for the same project |
| ProjectsService.ProjectWithCode | apps/backend/src/projects/projects.service.ts:11-16 | a project is found exactly when some project of the organization, active or not, has the code |
| ProjectsService.OtherProjectWithCode | apps/backend/src/projects/projects.service.ts:281-287 | a project is found exactly when a project of the organization other than this one has the code |
| ProjectsService.Create | apps/backend/src/projects/projects.service.ts:9-61 | Conflict "Project code already exists in this organization" when the code is taken, inactive projects included; NotFound "Client not found" for a non-empty client outside the organization (an empty one is not checked); otherwise the project is stored active, with the given fields and status PLANNED by default |
| ProjectsService.CreateKeepsCodesUnique | apps/backend/src/projects/projects.service.ts:10-20 | a successful create keeps codes unique within every organization |
| ProjectsService.PatchedProject | apps/backend/src/projects/projects.service.ts:308-316 | name, code, description, client, status, budget hours, budget amount, rate, start and end dates and colour are each the given value when given and the stored one when absent; id, organization, `active` and creation time are kept |
| ProjectsService.EmptyPatchKeepsProject | apps/backend/src/projects/projects.service.ts:308-316 | an update with no field changes nothing |
| ProjectsService.Update | apps/backend/src/projects/projects.service.ts:270-333 | NotFound "Project not found" outside the organization; Conflict only when a non-empty, changed code is held by another project; then NotFound "Client not found" for a non-empty client outside the organization (an empty one is not checked); otherwise the one row is patched |
| ProjectsService.UpdateKeepsCodesUnique | apps/backend/src/projects/projects.service.ts:279-292 | a successful update that does not write the empty code keeps codes unique |
| ProjectsService.EmptyCodeSkipsCheck | apps/backend/src/projects/projects.service.ts:280 | an update to the empty code is not checked, so two projects can end up sharing it |
| ProjectsService.FindAll | apps/backend/src/projects/projects.service.ts:63-110 | the page is the `skip`/`take` slice of a newest-first ordering of exactly the active projects of the organization matching the non-empty search, status and client filters; it holds only such projects, newest first, at most `limit`; `total` counts all matches; `totalPages` is the ceiling |
| ProjectsService.EmptyFiltersMatchAll | apps/backend/src/projects/projects.service.ts:64-76 | with search, status and client sent as the empty string, as the projects page does by default, the list selects every active project of the organization |
| ProjectsService.FirstPageOfList | apps/backend/src/projects/projects.service.ts:81-83 | the first page holds every match when they fit in one page, and otherwise no match left out is newer than a listed one |
| ProjectsService.TasksOnProject | apps/backend/src/projects/projects.service.ts:123-139 | the project's task relation holds only tasks of the project |
| ProjectsService.EntriesOnProject | apps/backend/src/projects/projects.service.ts:140-154 | the entry relation holds only entries of the project |
| ProjectsService.ExpensesOnProject | apps/backend/src/projects/projects.service.ts:155-171 | the expense relation holds only expenses of the project |
| ProjectsService.Latest | apps/backend/src/projects/projects.service.ts:137-170 | `orderBy` with `take: 10` gives the first ten rows of an ordering of exactly the relation's rows: sorted, ten of them or all when fewer, every row left out ordered after every row kept, and all of them when there are at most ten |
| ProjectsService.FindOne | apps/backend/src/projects/projects.service.ts:112-187 | NotFound exactly outside the organization, active or not; otherwise the project with the first ten of a newest-first ordering of its tasks, of its entries and of its expenses, and their counts |
| ProjectsService.Deactivated | apps/backend/src/projects/projects.service.ts:345-348 | the row with the id gets `active` false and nothing else changes |
| ProjectsService.Remove | apps/backend/src/projects/projects.service.ts:335-349 | NotFound exactly outside the organization; otherwise a soft delete of that one project |
| ProjectsService.RemoveHidesFromList | apps/backend/src/projects/projects.service.ts:335-349 | after a removal the list never shows the project |
| ProjectsService.RemoveKeepsRecord | apps/backend/src/projects/projects.service.ts:345-348 | after a removal `findOne` still returns the project, unchanged but for `active` |
| ProjectsService.RemovedCodeStaysTaken | apps/backend/src/projects/projects.service.ts:11-20 | a soft-deleted project's code still blocks a create with that code |
| ProjectsService.RemoveKeepsCodesUnique | apps/backend/src/projects/projects.service.ts:345-348 | a soft delete keeps codes unique |
| ProjectsService.Max0 | apps/backend/src/projects/projects.service.ts:255-263 | `Math.max(0, x)` is at least 0 and at least x, and is one of them |
| ProjectsService.RemainingHours | apps/backend/src/projects/projects.service.ts:254-256 | null exactly when budgetHours is absent or 0; otherwise never negative, the remainder while under budget and 0 once over |
| ProjectsService.RemainingBudget | apps/backend/src/projects/projects.service.ts:262-264 | null exactly when there is no budget amount; otherwise never negative, the remainder while under budget and 0 once over |
| ProjectsService.ExpensesSplit | apps/backend/src/projects/projects.service.ts:219-222 | billable and non-billable expenses add up to the total, so with amounts that are not negative billable ≤ total |
| ProjectsService.AmountsNonNegative | apps/backend/src/projects/projects.service.ts:219 | a total of amounts that are not negative is not negative |
| ProjectsService.StatusGroups | apps/backend/src/projects/projects.service.ts:225-232 | one group row per status, with the number of the project's tasks of that status |
| ProjectsService.TaskSummary | apps/backend/src/projects/projects.service.ts:234-237 | the `reduce` loop leaves the record built by assigning each group's count under its status |
| ProjectsService.AssignedLookup | apps/backend/src/projects/projects.service.ts:234-237 | over distinct statuses, a status is a key exactly when a group has it, and its value is that group's count |
| ProjectsService.TotalOne | apps/backend/src/projects/projects.service.ts:226-231 | counting each task once gives the number of tasks |
| ProjectsService.TaskCountIsSumGroups | apps/backend/src/projects/projects.service.ts:234-237 | the record's counts over the statuses are the group sums |
| ProjectsService.TaskSummaryKeys | apps/backend/src/projects/projects.service.ts:225-237 | a status is a key of `tasks` exactly when some task of the project has it, so statuses without tasks are absent |
| ProjectsService.TaskSummaryValues | apps/backend/src/projects/projects.service.ts:225-237 | each key holds the number of tasks with that status, which is positive |
| ProjectsService.TaskSummaryTotal | apps/backend/src/projects/projects.service.ts:225-237 | the per-status counts add up to the number of the project's tasks |
| ProjectsService.GetSummary | apps/backend/src/projects/projects.service.ts:189-268 | NotFound exactly outside the organization; otherwise hours and expense totals over the organization's rows of the project, the floored remainders, and the per-status task record |
| ProjectsService.SummaryBillableBounded | apps/backend/src/projects/projects.service.ts:206-209 | billable hours never exceed total hours |
| TimerWidget.FormatTime | apps/frontend/src/components/timesheets/timer-widget.tsx:33-38 | `HH:MM:SS`: three fields, each the padded decimal of hours, minutes and seconds, joined by two colons; the hours may run past two digits |
| TimerWidget.FormatTimeFields | apps/frontend/src/components/timesheets/timer-widget.tsx:33-38 | each field is all digits and reads back as its value; minutes and seconds are below 60; h·3600 + m·60 + s is the duration |
| TimerWidget.FormatTimeRoundTrip | apps/frontend/src/components/timesheets/timer-widget.tsx:33-38 | parsing the display gives back the duration |
| TimerWidget.ControlsOf | apps/frontend/src/components/timesheets/timer-widget.tsx:73-99 | Start exactly when idle, Pause exactly while running, Resume exactly when paused with time measured, Stop exactly when time is measured |
| TimerWidget.OneMainControl | apps/frontend/src/components/timesheets/timer-widget.tsx:73-99 | exactly one of Start, Pause and Resume is shown |
| TimerWidget.Timer.constructor | apps/frontend/src/components/timesheets/timer-widget.tsx:13-15 | the widget starts idle at zero with no start time |
| TimerWidget.Timer.HandleStart | apps/frontend/src/components/timesheets/timer-widget.tsx:40-43 | running, with a fresh start time; the shown time is kept |
| TimerWidget.Timer.HandlePause | apps/frontend/src/components/timesheets/timer-widget.tsx:45-47 | not running; the shown time and the start time are kept |
| TimerWidget.Timer.HandleStop | apps/frontend/src/components/timesheets/timer-widget.tsx:49-58 | not running, at zero, with no start time; `onTimeLogged` is called exactly when time had been measured |
| TimerWidget.Timer.Tick | apps/frontend/src/components/timesheets/timer-widget.tsx:17-31 | while running, the shown time is the whole seconds since the start; otherwise nothing changes |
| TimerWidget.ResumeRestarts | apps/frontend/src/components/timesheets/timer-widget.tsx:40-43 | after a pause and a resume, the time shown counts only from the resume |
| TimesheetsPage.FormatHours | apps/frontend/src/app/app/timesheets/page.tsx:44-48 | `h:mm`: the unpadded whole hours, a colon and the minutes past the hour padded to two digits |
| TimesheetsPage.FormatHoursRoundTrip | apps/frontend/src/app/app/timesheets/page.tsx:44-48 | the minute field is below 60 and parsing the text gives back the minutes |
| TimesheetsPage.PageWeekStartOfSunday | apps/frontend/src/app/app/timesheets/page.tsx:17-24 | the page's week start of a Sunday is the Monday six days before |
| TimesheetsPage.GetDaysOfWeek | apps/frontend/src/app/app/timesheets/page.tsx:58-66 | seven days, the first being the week start, on consecutive day numbers at the same time of day |
| TimesheetsPage.DayKeys | apps/frontend/src/app/app/timesheets/page.tsx:101 | the day keys of the shown week are consecutive from its first day |
| TimesheetsPage.RoundMinutes | apps/frontend/src/app/app/timesheets/page.tsx:76 | `Math.round(ms / 60000)` is the whole minute within half a minute of the duration |
| TimesheetsPage.RoundMinutesUnique | apps/frontend/src/app/app/timesheets/page.tsx:76 | only that one minute count is within half a minute |
| TimesheetsPage.QuickTimer.constructor | apps/frontend/src/app/app/timesheets/page.tsx:13-14 | no active timer and no start time |
| TimesheetsPage.QuickTimer.StartTimer | apps/frontend/src/app/app/timesheets/page.tsx:68-71 | the project and start time are set |
| TimesheetsPage.QuickTimer.StopTimer | apps/frontend/src/app/app/timesheets/page.tsx:73-84 | both fields cleared whether or not a timer ran; a running timer reports its project and rounded minutes |
| TimesheetsPage.CellIsGroup | apps/frontend/src/app/app/timesheets/page.tsx:236-240 | a grid cell sums the week's entries of that day and that project, 0 for a day without entries |
| TimesheetsPage.ColumnSumIsSumGroups | apps/frontend/src/app/app/timesheets/page.tsx:229-240 | a column of cells is the per-project group sums of that day's entries |
| TimesheetsPage.RowSumIsSumGroups | apps/frontend/src/app/app/timesheets/page.tsx:235-240 | a row of cells is the per-day group sums of that project's entries |
| TimesheetsPage.ColumnAddsUp | apps/frontend/src/app/app/timesheets/page.tsx:229-265 | down each day's column, the project cells add up to the totals row's `totalMinutes` |
| TimesheetsPage.WeekEntriesOnWeekDays | apps/frontend/src/app/app/timesheets/page.tsx:101 | every entry of a summarised week falls on one of the seven days the page shows |
| TimesheetsPage.RowAddsUp | apps/frontend/src/app/app/timesheets/page.tsx:235-251 | along each project's row, the seven day cells add up to the project's total shown at the row's end |
| FormFields.OrElse | apps/frontend/src/components/timesheets/timesheet-entry-form.tsx:61 | `a \|\| b` on texts is `a` when it is not empty and `b` otherwise, so it is empty only when both are |
| FormFields.NonEmpty | apps/frontend/src/components/timesheets/timesheet-entry-form.tsx:77-82 | `s \|\| undefined` is absent exactly for the empty text and is the text otherwise |
| FormFields.DatePart | apps/frontend/src/components/timesheets/timesheet-entry-form.tsx:63 | `split('T')[0]` is the longest prefix without a `T`, followed in the input by a `T` when shorter |
| FormFields.DatePartOfDate | apps/frontend/src/components/tasks/task-form.tsx:72 | a date without a `T` is its own date part |
| FormFields.DatePartOfTimestamp | apps/frontend/src/components/timesheets/timesheet-entry-form.tsx:63 | the date part of an ISO timestamp `date` + `T` + `time` is its date |
| EntryForm.Prefill | apps/frontend/src/components/timesheets/timesheet-entry-form.tsx:60-69 | the project falls back to the pre-selected one; hours and minutes split a stored duration (1 h and 0 min for none or 0); billable unless stored false; a zero rate becomes absent |
| EntryForm.PrefillRoundTrip | apps/frontend/src/components/timesheets/timesheet-entry-form.tsx:64-74 | for a stored duration, the pre-filled whole hours and minutes below 60 add back up to it |
| EntryForm.PrefillUnderAnHourRejected | apps/frontend/src/components/timesheets/timesheet-entry-form.tsx:19-64 | as written, the form pre-filled from any valid entry shorter than an hour fails the schema |
| EntryForm.PrefillAcceptedIntended | apps/frontend/src/components/timesheets/timesheet-entry-form.tsx:15-65 | the intended schema accepts the form pre-filled from every valid stored entry, and accepts all the written schema accepts |
| EntryForm.Payload | apps/frontend/src/components/timesheets/timesheet-entry-form.tsx:72-101 | both mutations send hours·60 + (minutes or 0); an empty task or notes is absent; a zero or absent rate is absent; the other fields pass through |
| EntryForm.UnchangedEditResubmits | apps/frontend/src/components/timesheets/timesheet-entry-form.tsx:60-101 | resubmitting an unchanged edit sends the stored duration, task, notes, rate and billable flag back |
| EntryForm.OnSubmit | apps/frontend/src/components/timesheets/timesheet-entry-form.tsx:108-121 | as written: nothing unless `timesheetEntrySchema` (hours at least 0.1) accepts; then an update of the edited entry, or a create exactly when there is none |
| EntryForm.IntendedOnSubmit | apps/frontend/src/components/timesheets/timesheet-entry-form.tsx:108-121 | with the intended time rule: nothing unless the intended schema accepts; then the same update or create |
| EntryForm.ShortEntryResubmit | apps/frontend/src/components/timesheets/timesheet-entry-form.tsx:59-121 | saving an unchanged entry of under an hour sends nothing as written, and resends its stored duration with the intended rule |
| EntryForm.NewEntryBillable | apps/frontend/src/components/timesheets/timesheet-entry-form.tsx:64-66 | a new entry starts billable, at one hour |
| EntryForm.EntryFormState.constructor | apps/frontend/src/components/timesheets/timesheet-entry-form.tsx:36-70 | the form starts at the pre-filled values, with the selected project shown in the select |
| EntryForm.EntryFormState.HandleProjectChange | apps/frontend/src/components/timesheets/timesheet-entry-form.tsx:123-127 | the new project is selected and set, and the task is reset to empty |
| TaskForm.Prefill | apps/frontend/src/components/tasks/task-form.tsx:65-75 | a new task starts empty as TODO and MEDIUM in the pre-selected project; an edited one keeps its title, description, parent, assignee ids and due date (its date part), falls back to TODO, MEDIUM and the pre-selected project, and has a zero estimate absent |
| TaskForm.NewTaskDefaults | apps/frontend/src/components/tasks/task-form.tsx:70-71 | the defaults parse as TODO and MEDIUM, the back end's own defaults, and the form accepts them once title and project are set |
| TaskForm.FormattedData | apps/frontend/src/components/tasks/task-form.tsx:96-103 | the parsed enums; an empty parent, description or due date is absent; an estimate of 0 is absent; an empty assignee list is absent |
| TaskForm.OnSubmit | apps/frontend/src/components/tasks/task-form.tsx:92-115 | nothing unless the schema accepts; update exactly when an edited task is present, otherwise create |
| TaskForm.UnchangedEditResubmits | apps/frontend/src/components/tasks/task-form.tsx:65-109 | resubmitting an unchanged edit is an update that sends the stored status, priority, parent and description back |
| TaskForm.AvailableParentTasks | apps/frontend/src/components/tasks/task-form.tsx:131-135 | candidates are tasks of the selected project; when editing, neither the task itself nor a direct child |
| TaskForm.ParentCandidatesComplete | apps/frontend/src/components/tasks/task-form.tsx:132-134 | every other task of the project is offered; when creating, every task of the project |
| TaskForm.IntendedAvailableParentTasks | apps/frontend/src/components/tasks/task-form.tsx:131 | the intended filter offers neither the task itself nor any descendant |
| TaskForm.IntendedCandidatesComplete | apps/frontend/src/components/tasks/task-form.tsx:131 | every task of the project that is neither the edited task nor a descendant of it is offered by the intended filter; when creating, every task of the project |
| TaskForm.IntendedNarrower | apps/frontend/src/components/tasks/task-form.tsx:131-135 | the intended filter offers a subset of the written one, and the same set when creating |
| TaskForm.ExampleChain | apps/frontend/src/components/tasks/task-form.tsx:131-135 | in the chain a ← b ← c, both b and c descend from a |
| TaskForm.GrandchildOffered | apps/frontend/src/components/tasks/task-form.tsx:132-135 | editing a, the written filter offers the grandchild c, a descendant |
| TaskForm.GrandchildNotOfferedIntended | apps/frontend/src/components/tasks/task-form.tsx:131 | editing a, the intended filter offers nothing |

## Left out

- TimesheetsService.WeekEntries: the weekly `findMany` has no `orderBy`, so
  the database's row order is unspecified. The model takes the table's storage
  order. That choice fixes the order of the `projectSummary` buckets, which
  follow the first appearance of each project (`ProjectBuckets` over
  `KeysOf`). Which buckets there are and what they hold does not depend on it.
- Prisma's `include`/`select` column subsets and `_count` blocks in returned
  rows are not modelled beyond the counts the services test. Neither are
  `Promise.all` parallelism or transaction isolation.
- TasksService `findOne` and TimesheetsService `findOne` are not modelled.
  They are lookups with includes.
- The clients, users, organizations and auth services are not modelled,
  because they are pass-through CRUD or foreign calls (hashing, JWT). The
  controllers are not modelled because they are thin routing. The
  presentation pages, the project and client forms, and the seed and module
  files are not modelled either.
- The case-insensitive `contains` of search filters is a parameter, because
  it depends on the database collation.
- `new Date(text)`, `toISOString()` and `toLocaleDateString` are not modelled.
  The forms take the ISO text as a parameter, and the services take dates as
  instants.
- `setInterval`, `Date.now()` and `new Date()` are not modelled. Ticks are
  explicit calls carrying the clock value.
- React rendering, queries, loading flags and `console.log` are not modelled.
  The quick timer records what it would log in `stopped`.
- `valueAsNumber` of an empty number input (NaN) is not modelled.
- TimesheetsService.Hours: it does not apply `Math.round(x * 100) / 100`,
  because that is floating-point rounding. Hours are the exact minutes / 60.
- ProjectsService.GetSummary: it does not apply the two-decimal rounding of
  its totals, for the same reason. Amounts are exact reals.
- TimerWidget.FormatTime: it takes a natural number of seconds, so it does
  not format the negative elapsed time that a tick with a clock before the
  start would give.
- TaskForm.DescendsFrom: it follows parent links at most as many steps as
  there are listed tasks. A chain through tasks outside the loaded list is
  not seen.
- Store.PageOf, Store.TotalPages, TasksService.FindAll,
  TimesheetsService.FindAll and ProjectsService.FindAll: they require
  `page >= 1` and `limit >= 1`. The controllers pass `parseInt` of the query
  text unchecked, so `page=0` (a negative `skip`), `limit=0` (a division by
  zero in `Math.ceil(total / limit)`) and a non-numeric text (NaN) are not
  modelled.
- TasksService.Patched: a field the body gives as `null` is written by the
  `...taskData` spread (for example `parentId: null` detaches the task). The
  model's `Option` has only "absent" and "given", so it cannot send `null`;
  an absent field keeps the stored value. A field given as `""` is written,
  as in the source.
- ProjectsService.PatchedProject: the same for `null` under the
  `...projectData` spread (for example `description: null`). The start and
  end dates go through `? new Date(...) : undefined`, so the source keeps
  them for `null` too.
- TimesheetsService.PatchedEntry: the same for `null` under the
  `...entryData` spread (for example `notes: null`).
- EntryForm.Prefill: it takes the stored rate as a number, for which
  `entry.hourlyRate ? Number(entry.hourlyRate) : undefined` leaves a rate of 0
  absent. Were the API to send the rate as the text "0", that text is truthy
  and the form would hold 0. The submitted payload drops a 0 rate either way.
- TasksService.Create, TasksService.Update, TimesheetsService.Create,
  TimesheetsService.Update, ProjectsService.Create and ProjectsService.Update:
  an id given as `""` skips the existence check and is written into the row
  as given by the spread. The database's foreign-key constraint, which would
  then refuse the row, is not modelled.
- EntryForm.EntryFormState.HandleProjectChange: it requires the select to be
  enabled. A pre-selected project disables it, so the handler cannot then be
  called.

## Findings

| source | as written | input that shows it | evidently intended | confidence | as-written member | corrected member |
|---|---|---|---|---|---|---|
| apps/frontend/src/components/timesheets/timesheet-entry-form.tsx:19, 64 | The schema requires hours ≥ 0.1, and the prefill of a stored entry of under 60 minutes puts 0 in hours. | editing an entry of 45 minutes: hours 0, minutes 45, refused with "Hours must be greater than 0" | an entry with some time (hours ≥ 0 and hours·60 + minutes > 0) is accepted | medium, not executed | EntryForm.PrefillUnderAnHourRejected | EntryForm.IntendedOnSubmit |
| apps/backend/src/timesheets/timesheets.service.ts:257, 329-333 | The default week start `getWeekStart(new Date())` keeps the current time of day, so the week runs from Monday at the current clock time. | at 10:00 on a Monday, an entry dated that Monday 00:00 is left out of the current week | the week starts at Monday 00:00, as the timesheet page computes it | high, not executed | TimesheetsService.DefaultWeekMissesMondayMorning | TimesheetsService.IntendedGetWeeklySummary |
| apps/frontend/src/components/tasks/task-form.tsx:131-135 | The parent filter excludes the task itself and its direct children only. | editing a in the chain a ← b ← c: c is offered as parent, and the back end accepts it, which makes a cycle | neither the task itself nor any descendant is offered, as the comment says | high, not executed | TaskForm.GrandchildOffered | TaskForm.IntendedAvailableParentTasks |
