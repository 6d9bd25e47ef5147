/** The task request bodies (`CreateTaskDto`, `UpdateTaskDto`) and the
    `TaskStatus` and `Priority` enums, with the checks class-validator applies
    to their fields. */
module TaskDto {
  import opened Wrappers

  datatype TaskStatus = Todo | InProgress | InReview | Done

  /** The enum's string value, as stored and as sent over the wire. */
  function StatusName(s: TaskStatus): string {
    match s
    case Todo => "TODO"
    case InProgress => "IN_PROGRESS"
    case InReview => "IN_REVIEW"
    case Done => "DONE"
  }

  /** `@IsEnum(TaskStatus)`: a string is a status exactly when it is one of the
      four values. */
  function ParseStatus(raw: string): (r: Option<TaskStatus>)
    ensures r.Some? ==> StatusName(r.value) == raw
    ensures r.None? ==> raw !in {"TODO", "IN_PROGRESS", "IN_REVIEW", "DONE"}
  {
    if raw == "TODO" then Some(Todo)
    else if raw == "IN_PROGRESS" then Some(InProgress)
    else if raw == "IN_REVIEW" then Some(InReview)
    else if raw == "DONE" then Some(Done)
    else None
  }

  /** Reading the enum back is the inverse of writing it. */
  lemma ParseStatusRoundTrip(raw: string, s: TaskStatus)
    ensures ParseStatus(raw) == Some(s) <==> raw == StatusName(s)
  {
  }

  datatype Priority = Low | Medium | High | Urgent

  function PriorityName(p: Priority): string {
    match p
    case Low => "LOW"
    case Medium => "MEDIUM"
    case High => "HIGH"
    case Urgent => "URGENT"
  }

  /** `@IsEnum(Priority)`. */
  function ParsePriority(raw: string): (r: Option<Priority>)
    ensures r.Some? ==> PriorityName(r.value) == raw
    ensures r.None? ==> raw !in {"LOW", "MEDIUM", "HIGH", "URGENT"}
  {
    if raw == "LOW" then Some(Low)
    else if raw == "MEDIUM" then Some(Medium)
    else if raw == "HIGH" then Some(High)
    else if raw == "URGENT" then Some(Urgent)
    else None
  }

  /** Reading the enum back is the inverse of writing it. */
  lemma ParsePriorityRoundTrip(raw: string, p: Priority)
    ensures ParsePriority(raw) == Some(p) <==> raw == PriorityName(p)
  {
  }

  const DefaultStatus: TaskStatus := Todo
  const DefaultPriority: Priority := Medium
  const MaxTags := 10
  const MaxAssignees := 20

  /** `CreateTaskDto`. Enum fields arrive as raw strings; dates as instants. */
  datatype CreateTaskDto = CreateTaskDto(
    title: string,
    description: Option<string>,
    projectId: string,
    parentId: Option<string>,
    status: Option<string>,
    priority: Option<string>,
    tags: Option<seq<string>>,
    dueDate: Option<int>,
    estimatedHours: Option<int>,
    assigneeIds: Option<seq<string>>,
    orderIndex: Option<int>)

  /** `UpdateTaskDto`: every field of `CreateTaskDto` but `projectId`, each optional. */
  datatype UpdateTaskDto = UpdateTaskDto(
    title: Option<string>,
    description: Option<string>,
    parentId: Option<string>,
    status: Option<string>,
    priority: Option<string>,
    tags: Option<seq<string>>,
    dueDate: Option<int>,
    estimatedHours: Option<int>,
    assigneeIds: Option<seq<string>>,
    orderIndex: Option<int>)

  /** The field checks shared by both bodies. `orderIndex` is only `@IsInt()`:
      any integer, negative ones included. */
  predicate ValidFields(status: Option<string>, priority: Option<string>, tags: Option<seq<string>>,
                        estimatedHours: Option<int>, assigneeIds: Option<seq<string>>)
  {
    && (status.Some? ==> ParseStatus(status.value).Some?)
    && (priority.Some? ==> ParsePriority(priority.value).Some?)
    && (tags.Some? ==> |tags.value| <= MaxTags)
    && (estimatedHours.Some? ==> estimatedHours.value >= 0)
    && (assigneeIds.Some? ==> |assigneeIds.value| <= MaxAssignees)
  }

  predicate ValidCreateTask(d: CreateTaskDto) {
    ValidFields(d.status, d.priority, d.tags, d.estimatedHours, d.assigneeIds)
  }

  predicate ValidUpdateTask(d: UpdateTaskDto) {
    ValidFields(d.status, d.priority, d.tags, d.estimatedHours, d.assigneeIds)
  }

  /** The status a new task gets: the one given, TODO when none is. */
  function CreatedStatus(d: CreateTaskDto): (s: TaskStatus)
    requires ValidCreateTask(d)
    ensures StatusName(s) == d.status.GetOr("TODO")
    ensures d.status.None? ==> s == DefaultStatus
  {
    if d.status.Some? then ParseStatus(d.status.value).value else DefaultStatus
  }

  /** The priority a new task gets: the one given, MEDIUM when none is. */
  function CreatedPriority(d: CreateTaskDto): (p: Priority)
    requires ValidCreateTask(d)
    ensures PriorityName(p) == d.priority.GetOr("MEDIUM")
    ensures d.priority.None? ==> p == DefaultPriority
  {
    if d.priority.Some? then ParsePriority(d.priority.value).value else DefaultPriority
  }

  /** The order index is unconstrained: a negative one passes validation. */
  lemma OrderIndexUnbounded(d: CreateTaskDto, k: int)
    requires ValidCreateTask(d)
    ensures ValidCreateTask(d.(orderIndex := Some(k)))
  {
  }
}
