/** The task form: its pre-filled values, its schema, the normalised request
    body it submits, and the tasks it offers as parent. */
module TaskForm {
  import opened Wrappers
  import opened FormFields
  import opened Seqs
  import opened TaskDto

  /** A task of the parent list, as the API returns it. */
  datatype ListedTask = ListedTask(id: string, projectId: string, parentId: Option<string>)

  /** The task being edited, as the API returns it. */
  datatype EditedTask = EditedTask(
    id: string,
    title: string,
    description: Option<string>,
    projectId: string,
    parentId: Option<string>,
    status: string,
    priority: string,
    dueDate: Option<string>,
    estimatedHours: Option<real>,
    assigneeIds: Option<seq<string>>)

  /** The form's fields; `status` and `priority` hold the select's value. */
  datatype FormValues = FormValues(
    title: string,
    description: string,
    projectId: string,
    parentId: string,
    status: string,
    priority: string,
    dueDate: string,
    estimatedHours: Option<real>,
    assigneeIds: seq<string>)

  // ---------------------------------------------------------------- prefill

  /** `defaultValues`, with `projectId` the pre-selected project of the page. */
  function Prefill(task: Option<EditedTask>, projectId: Option<string>): (v: FormValues)
    ensures task.None? ==> v == FormValues("", "", projectId.GetOr(""), "", "TODO", "MEDIUM", "", None, [])
    ensures task.Some? ==>
      && v.title == task.value.title
      && v.projectId == OrElse(task.value.projectId, projectId.GetOr(""))
      && v.status == OrElse(task.value.status, "TODO")
      && v.priority == OrElse(task.value.priority, "MEDIUM")
      && v.description == task.value.description.GetOr("")
      && v.parentId == task.value.parentId.GetOr("")
      && v.dueDate == (if task.value.dueDate.Some? && task.value.dueDate.value != "" then DatePart(task.value.dueDate.value) else "")
      && (v.estimatedHours.Some? <==> task.value.estimatedHours.Some? && task.value.estimatedHours.value != 0.0)
      && (v.estimatedHours.Some? ==> v.estimatedHours == task.value.estimatedHours)
      && v.assigneeIds == task.value.assigneeIds.GetOr([])
  {
    match task
    case None => FormValues("", "", OrElse("", projectId.GetOr("")), "", "TODO", "MEDIUM", "", None, [])
    case Some(t) =>
      FormValues(
        t.title,
        t.description.GetOr(""),
        OrElse(t.projectId, projectId.GetOr("")),
        t.parentId.GetOr(""),
        OrElse(t.status, "TODO"),
        OrElse(t.priority, "MEDIUM"),
        if t.dueDate.Some? && t.dueDate.value != "" then DatePart(t.dueDate.value) else "",
        if t.estimatedHours.Some? && t.estimatedHours.value != 0.0 then t.estimatedHours else None,
        t.assigneeIds.GetOr([]))
  }

  // ---------------------------------------------------------------- schema

  /** `taskSchema`: a title and a project, one of the four statuses and of the
      four priorities, and estimated hours that are not negative. */
  predicate SchemaAccepts(v: FormValues) {
    && v.title != ""
    && v.projectId != ""
    && ParseStatus(v.status).Some?
    && ParsePriority(v.priority).Some?
    && (v.estimatedHours.Some? ==> v.estimatedHours.value >= 0.0)
  }

  /** A new task starts as TODO with MEDIUM priority, the back end's own
      defaults, and the form accepts it once it has a title and a project. */
  lemma NewTaskDefaults(projectId: Option<string>, title: string)
    ensures var v := Prefill(None, projectId);
      && ParseStatus(v.status) == Some(DefaultStatus)
      && ParsePriority(v.priority) == Some(DefaultPriority)
      && (SchemaAccepts(v.(title := title)) <==> title != "" && projectId.GetOr("") != "")
  {
  }

  // ---------------------------------------------------------------- submit

  /** `formattedData`: the body of the create and update requests. */
  datatype TaskPayload = TaskPayload(
    title: string,
    description: Option<string>,
    projectId: string,
    parentId: Option<string>,
    status: TaskStatus,
    priority: Priority,
    dueDate: Option<string>,
    estimatedHours: Option<real>,
    assigneeIds: Option<seq<string>>)

  /** The values the schema has parsed, with empty optional fields dropped;
      `isoDueDate` is `new Date(data.dueDate).toISOString()`. */
  function FormattedData(v: FormValues, isoDueDate: string): (p: TaskPayload)
    requires SchemaAccepts(v)
    ensures StatusName(p.status) == v.status && PriorityName(p.priority) == v.priority
    ensures p.parentId == NonEmpty(v.parentId) && p.description == NonEmpty(v.description)
    ensures p.dueDate.None? <==> v.dueDate == ""
    ensures p.estimatedHours.None? <==> v.estimatedHours.None? || v.estimatedHours.value == 0.0
    ensures p.estimatedHours.Some? ==> p.estimatedHours == v.estimatedHours
    ensures p.assigneeIds.None? <==> v.assigneeIds == []
    ensures p.assigneeIds.Some? ==> p.assigneeIds.value == v.assigneeIds
    ensures p.title == v.title && p.projectId == v.projectId
  {
    TaskPayload(
      v.title,
      NonEmpty(v.description),
      v.projectId,
      NonEmpty(v.parentId),
      ParseStatus(v.status).value,
      ParsePriority(v.priority).value,
      if v.dueDate != "" then Some(isoDueDate) else None,
      if v.estimatedHours.Some? && v.estimatedHours.value != 0.0 then v.estimatedHours else None,
      if |v.assigneeIds| > 0 then Some(v.assigneeIds) else None)
  }

  /** The request `onSubmit` sends. */
  datatype Submission = CreateTask(payload: TaskPayload) | UpdateTask(id: string, payload: TaskPayload)

  /** `handleSubmit(onSubmit)`: nothing unless the schema accepts the values;
      then an update of the edited task, or a create when there is none. */
  function OnSubmit(task: Option<EditedTask>, v: FormValues, isoDueDate: string): (r: Option<Submission>)
    ensures r.Some? <==> SchemaAccepts(v)
    ensures r.Some? ==> r.value.payload == FormattedData(v, isoDueDate)
    ensures r.Some? ==> (r.value.UpdateTask? <==> task.Some?)
    ensures r.Some? && task.Some? ==> r.value.id == task.value.id
  {
    if !SchemaAccepts(v) then None
    else if task.Some? then Some(UpdateTask(task.value.id, FormattedData(v, isoDueDate)))
    else Some(CreateTask(FormattedData(v, isoDueDate)))
  }

  /** Resubmitting an unchanged edit form sends the stored status, priority,
      parent and description back. */
  lemma UnchangedEditResubmits(t: EditedTask, projectId: Option<string>, isoDueDate: string, s: TaskStatus, p: Priority)
    requires t.title != "" && t.projectId != ""
    requires t.status == StatusName(s) && t.priority == PriorityName(p)
    requires t.estimatedHours.Some? ==> t.estimatedHours.value >= 0.0
    ensures var r := OnSubmit(Some(t), Prefill(Some(t), projectId), isoDueDate);
      && r == Some(UpdateTask(t.id, r.value.payload))
      && r.value.payload.status == s && r.value.payload.priority == p
      && r.value.payload.parentId == NonEmpty(t.parentId.GetOr(""))
      && r.value.payload.description == NonEmpty(t.description.GetOr(""))
  {
    ParseStatusRoundTrip(t.status, s);
    ParsePriorityRoundTrip(t.priority, p);
    assert t.status != "" by { assert StatusName(s) != ""; }
    assert t.priority != "" by { assert PriorityName(p) != ""; }
  }

  // ---------------------------------------------------------------- parents

  /** `availableParentTasks`' test as written: the selected project's tasks
      and, when editing, neither the task itself nor a task whose parent it is. */
  predicate ParentCandidate(t: ListedTask, projectId: string, editing: Option<EditedTask>) {
    t.projectId == projectId && (editing.None? || (t.id != editing.value.id && t.parentId != Some(editing.value.id)))
  }

  function AvailableParentTasks(tasks: seq<ListedTask>, projectId: string, editing: Option<EditedTask>): (r: seq<ListedTask>)
    ensures forall i :: 0 <= i < |r| ==> r[i] in tasks && r[i].projectId == projectId
    ensures editing.Some? ==> forall i :: 0 <= i < |r| ==>
      r[i].id != editing.value.id && r[i].parentId != Some(editing.value.id)
  {
    Filter(tasks, t => ParentCandidate(t, projectId, editing))
  }

  /** Every task of the project that is neither the edited task nor one of its
      direct children is offered; when creating, every task of the project. */
  lemma ParentCandidatesComplete(tasks: seq<ListedTask>, projectId: string, editing: Option<EditedTask>, i: nat)
    requires i < |tasks| && tasks[i].projectId == projectId
    requires editing.Some? ==> tasks[i].id != editing.value.id && tasks[i].parentId != Some(editing.value.id)
    ensures tasks[i] in AvailableParentTasks(tasks, projectId, editing)
  {
    FilterKeeps(tasks, t => ParentCandidate(t, projectId, editing));
  }

  /** Whether `a` is among the ancestors of `t`, following parent links through
      `tasks` for at most `fuel` further steps. */
  predicate DescendsFrom(tasks: seq<ListedTask>, t: ListedTask, a: string, fuel: nat)
    decreases fuel
  {
    t.parentId.Some? &&
    (t.parentId.value == a ||
     (fuel > 0 &&
      match Find(tasks, (x: ListedTask) => x.id == t.parentId.value)
      case None => false
      case Some(parent) => DescendsFrom(tasks, parent, a, fuel - 1)))
  }

  /** The filter as its comment describes it: neither the task itself nor any
      of its descendants. */
  predicate IntendedParentCandidate(tasks: seq<ListedTask>, t: ListedTask, projectId: string, editing: Option<EditedTask>) {
    t.projectId == projectId && (editing.None? || (t.id != editing.value.id && !DescendsFrom(tasks, t, editing.value.id, |tasks|)))
  }

  function IntendedAvailableParentTasks(tasks: seq<ListedTask>, projectId: string, editing: Option<EditedTask>): (r: seq<ListedTask>)
    ensures forall i :: 0 <= i < |r| ==> r[i] in tasks && r[i].projectId == projectId
    ensures editing.Some? ==> forall i :: 0 <= i < |r| ==>
      r[i].id != editing.value.id && !DescendsFrom(tasks, r[i], editing.value.id, |tasks|)
  {
    Filter(tasks, t => IntendedParentCandidate(tasks, t, projectId, editing))
  }

  /** Every task of the project that is neither the edited task nor one of its
      descendants is offered by the intended filter; when creating, every task
      of the project. */
  lemma IntendedCandidatesComplete(tasks: seq<ListedTask>, projectId: string, editing: Option<EditedTask>, i: nat)
    requires i < |tasks| && tasks[i].projectId == projectId
    requires editing.Some? ==> tasks[i].id != editing.value.id && !DescendsFrom(tasks, tasks[i], editing.value.id, |tasks|)
    ensures tasks[i] in IntendedAvailableParentTasks(tasks, projectId, editing)
  {
    FilterKeeps(tasks, t => IntendedParentCandidate(tasks, t, projectId, editing));
  }

  /** The intended filter offers only what the written one offers (a direct
      child descends from its parent), and the same when creating. */
  lemma IntendedNarrower(tasks: seq<ListedTask>, t: ListedTask, projectId: string, editing: Option<EditedTask>)
    ensures IntendedParentCandidate(tasks, t, projectId, editing) ==> ParentCandidate(t, projectId, editing)
    ensures editing.None? ==> (IntendedParentCandidate(tasks, t, projectId, editing) <==> ParentCandidate(t, projectId, editing))
  {
  }

  /** The example of the next lemmas: editing the root `a` of the chain
      a <- b <- c of project `p`. */
  const ExampleRoot := EditedTask("a", "A", None, "p", None, "TODO", "MEDIUM", None, None, None)
  const ExampleTasks := [ListedTask("a", "p", None), ListedTask("b", "p", Some("a")), ListedTask("c", "p", Some("b"))]

  /** Both `b` and its child `c` descend from `a`. */
  lemma ExampleChain()
    ensures DescendsFrom(ExampleTasks, ExampleTasks[1], "a", 3)
    ensures DescendsFrom(ExampleTasks, ExampleTasks[2], "a", 3)
  {
    var tasks := ExampleTasks;
    var isB := (x: ListedTask) => x.id == "b";
    assert Find(tasks, isB) == Some(tasks[1]) by {
      assert !isB(tasks[0]) && tasks[1..][0] == tasks[1];
    }
  }

  /** The written filter offers the grandchild `c` as the parent of `a`, which
      the back end accepts (it refuses only a task as its own parent) and which
      closes the cycle a <- b <- c <- a. */
  lemma GrandchildOffered()
    ensures AvailableParentTasks(ExampleTasks, "p", Some(ExampleRoot)) == [ExampleTasks[2]]
    ensures DescendsFrom(ExampleTasks, ExampleTasks[2], ExampleRoot.id, |ExampleTasks|)
  {
    ExampleChain();
    var tasks := ExampleTasks;
    var written := (t: ListedTask) => ParentCandidate(t, "p", Some(ExampleRoot));
    assert !written(tasks[0]) && !written(tasks[1]) && written(tasks[2]);
    assert tasks[..1][..0] == [];
    assert Filter(tasks[..1], written) == [];
    assert tasks[..2][..1] == tasks[..1];
    assert Filter(tasks[..2], written) == [];
    assert Filter(tasks, written) == Filter(tasks[..2], written) + [tasks[2]];
  }

  /** The intended filter offers `a` no parent at all. */
  lemma GrandchildNotOfferedIntended()
    ensures IntendedAvailableParentTasks(ExampleTasks, "p", Some(ExampleRoot)) == []
  {
    ExampleChain();
    var tasks := ExampleTasks;
    var intended := (t: ListedTask) => IntendedParentCandidate(tasks, t, "p", Some(ExampleRoot));
    assert tasks[..2] == [tasks[0], tasks[1]] && tasks[..2][..1] == [tasks[0]] && tasks[..1][..0] == [];
    assert Filter(tasks[..1], intended) == [];
    assert Filter(tasks[..2], intended) == [];
  }
}
