/** The timesheet entry form: the values it is pre-filled with, its schema, the
    request body it submits, and the project select that resets the task. */
module EntryForm {
  import opened Wrappers
  import opened FormFields
  import opened EntryDto

  /** The entry being edited, as the API returns it (`date` is an ISO text). */
  datatype EditedEntry = EditedEntry(
    id: string,
    projectId: string,
    taskId: Option<string>,
    date: string,
    minutes: nat,
    billable: Option<bool>,
    hourlyRate: Option<real>,
    notes: Option<string>)

  /** The form's fields; numbers are exact reals (`valueAsNumber`). */
  datatype FormValues = FormValues(
    projectId: string,
    taskId: string,
    date: string,
    hours: real,
    minutes: Option<real>,
    billable: bool,
    hourlyRate: Option<real>,
    notes: string)

  // ---------------------------------------------------------------- prefill

  /** The hours field: whole hours of a stored duration, 1 for a new entry
      (`entry?.minutes` is falsy for 0 as well). */
  function PrefillHours(entry: Option<EditedEntry>): real {
    if entry.Some? && entry.value.minutes != 0 then (entry.value.minutes / 60) as real else 1.0
  }

  /** The minutes field: the minutes past the whole hours, 0 for a new entry. */
  function PrefillMinutes(entry: Option<EditedEntry>): real {
    if entry.Some? && entry.value.minutes != 0 then (entry.value.minutes % 60) as real else 0.0
  }

  /** `defaultValues`, with `projectId` the pre-selected project of the page
      and `now` the current instant's ISO text. */
  function Prefill(entry: Option<EditedEntry>, projectId: Option<string>, now: string): (v: FormValues)
    ensures v.projectId == OrElse(if entry.Some? then entry.value.projectId else "", projectId.GetOr(""))
    ensures v.date == DatePart(if entry.Some? && entry.value.date != "" then entry.value.date else now)
    ensures v.hours == PrefillHours(entry) && v.minutes == Some(PrefillMinutes(entry))
    ensures v.billable <==> !(entry.Some? && entry.value.billable == Some(false))
    ensures v.hourlyRate.Some? <==> entry.Some? && entry.value.hourlyRate.Some? && entry.value.hourlyRate.value != 0.0
    ensures v.hourlyRate.Some? ==> v.hourlyRate == entry.value.hourlyRate
  {
    match entry
    case None =>
      FormValues(OrElse("", projectId.GetOr("")), "", DatePart(now), 1.0, Some(0.0), true, None, "")
    case Some(e) =>
      FormValues(
        OrElse(e.projectId, projectId.GetOr("")),
        e.taskId.GetOr(""),
        DatePart(if e.date != "" then e.date else now),
        PrefillHours(entry),
        Some(PrefillMinutes(entry)),
        e.billable.GetOr(true),
        if e.hourlyRate.Some? && e.hourlyRate.value != 0.0 then e.hourlyRate else None,
        e.notes.GetOr(""))
  }

  /** `(data.hours * 60) + (data.minutes || 0)`: the duration the form submits. */
  function TotalMinutes(v: FormValues): real {
    v.hours * 60.0 + (if v.minutes.Some? then v.minutes.value else 0.0)
  }

  /** Pre-filling a stored duration splits it into whole hours and minutes
      below 60 that add back up to it, so an unchanged form resubmits it. */
  lemma PrefillRoundTrip(e: EditedEntry, projectId: Option<string>, now: string)
    requires e.minutes > 0
    ensures var v := Prefill(Some(e), projectId, now);
      && v.hours.Floor as real == v.hours && v.hours >= 0.0
      && 0.0 <= v.minutes.value <= 59.0
      && TotalMinutes(v) == e.minutes as real
  {
    var h, m := e.minutes / 60, e.minutes % 60;
    assert h * 60 + m == e.minutes;
    assert (h as real) * 60.0 + (m as real) == (h * 60 + m) as real;
  }

  // ---------------------------------------------------------------- schema

  /** `timesheetEntrySchema` as written: a project and a date, at least 0.1
      hours, minutes 0..59 when given, and a rate that is not negative. */
  predicate SchemaAccepts(v: FormValues) {
    && v.projectId != ""
    && v.date != ""
    && v.hours >= 0.1
    && (v.minutes.Some? ==> 0.0 <= v.minutes.value <= 59.0)
    && (v.hourlyRate.Some? ==> v.hourlyRate.value >= 0.0)
  }

  /** The schema with the evidently intended time rule: the hours are not
      negative and hours and minutes together are more than nothing. */
  predicate IntendedSchemaAccepts(v: FormValues) {
    && v.projectId != ""
    && v.date != ""
    && v.hours >= 0.0
    && (v.minutes.Some? ==> 0.0 <= v.minutes.value <= 59.0)
    && TotalMinutes(v) > 0.0
    && (v.hourlyRate.Some? ==> v.hourlyRate.value >= 0.0)
  }

  /** The schema as written refuses the form pre-filled from any entry shorter
      than an hour: its hours field is 0, below the minimum of 0.1, even though
      the back end stores such entries. */
  lemma PrefillUnderAnHourRejected(e: EditedEntry, projectId: Option<string>, now: string)
    requires 0 < e.minutes < 60
    ensures ValidMinutes(e.minutes)
    ensures !SchemaAccepts(Prefill(Some(e), projectId, now))
  {
  }

  /** The intended schema accepts the form pre-filled from every stored entry
      with a project and a date, and it accepts everything the written one
      did. */
  lemma PrefillAcceptedIntended(e: EditedEntry, projectId: Option<string>, now: string)
    requires ValidMinutes(e.minutes) && e.projectId != "" && e.date != "" && e.date[0] != 'T'
    requires e.hourlyRate.Some? ==> e.hourlyRate.value >= 0.0
    ensures IntendedSchemaAccepts(Prefill(Some(e), projectId, now))
    ensures forall v :: SchemaAccepts(v) ==> IntendedSchemaAccepts(v)
  {
    PrefillRoundTrip(e, projectId, now);
    assert |DatePart(e.date)| > 0;
  }

  // ---------------------------------------------------------------- submit

  /** The body of the create and update requests. */
  datatype EntryPayload = EntryPayload(
    projectId: string,
    taskId: Option<string>,
    date: string,
    minutes: real,
    billable: bool,
    hourlyRate: Option<real>,
    notes: Option<string>)

  /** The body both mutations build; `isoDate` is `new Date(data.date).toISOString()`. */
  function Payload(v: FormValues, isoDate: string): (p: EntryPayload)
    ensures p.minutes == TotalMinutes(v)
    ensures p.taskId == NonEmpty(v.taskId) && p.notes == NonEmpty(v.notes)
    ensures p.hourlyRate.None? <==> v.hourlyRate.None? || v.hourlyRate.value == 0.0
    ensures p.hourlyRate.Some? ==> p.hourlyRate == v.hourlyRate
    ensures p.projectId == v.projectId && p.date == isoDate && p.billable == v.billable
  {
    EntryPayload(
      v.projectId,
      NonEmpty(v.taskId),
      isoDate,
      TotalMinutes(v),
      v.billable,
      if v.hourlyRate.Some? && v.hourlyRate.value != 0.0 then v.hourlyRate else None,
      NonEmpty(v.notes))
  }

  /** Resubmitting an unchanged edit form sends the stored duration, task, rate
      and notes back (an empty task or notes being the same as none). */
  lemma UnchangedEditResubmits(e: EditedEntry, projectId: Option<string>, now: string, isoDate: string)
    requires e.minutes > 0
    ensures var p := Payload(Prefill(Some(e), projectId, now), isoDate);
      && p.minutes == e.minutes as real
      && p.taskId == NonEmpty(e.taskId.GetOr(""))
      && p.notes == NonEmpty(e.notes.GetOr(""))
      && (p.hourlyRate.Some? <==> e.hourlyRate.Some? && e.hourlyRate.value != 0.0)
      && (p.billable <==> e.billable != Some(false))
  {
    PrefillRoundTrip(e, projectId, now);
  }

  /** The request `onSubmit` sends. */
  datatype Submission = CreateEntry(payload: EntryPayload) | UpdateEntry(id: string, payload: EntryPayload)

  /** `handleSubmit(onSubmit)` as written: nothing unless `timesheetEntrySchema`
      accepts the values; then an update of the edited entry, or a create when
      there is none. */
  function OnSubmit(entry: Option<EditedEntry>, v: FormValues, isoDate: string): (r: Option<Submission>)
    ensures r.Some? <==> SchemaAccepts(v)
    ensures r.Some? ==> r.value.payload == Payload(v, isoDate)
    ensures r.Some? ==> (r.value.UpdateEntry? <==> entry.Some?)
    ensures r.Some? && entry.Some? ==> r.value.id == entry.value.id
  {
    if !SchemaAccepts(v) then None
    else if entry.Some? then Some(UpdateEntry(entry.value.id, Payload(v, isoDate)))
    else Some(CreateEntry(Payload(v, isoDate)))
  }

  /** `handleSubmit(onSubmit)` with the intended time rule: the same requests,
      gated by `IntendedSchemaAccepts`. */
  function IntendedOnSubmit(entry: Option<EditedEntry>, v: FormValues, isoDate: string): (r: Option<Submission>)
    ensures r.Some? <==> IntendedSchemaAccepts(v)
    ensures r.Some? ==> r.value.payload == Payload(v, isoDate)
    ensures r.Some? ==> (r.value.UpdateEntry? <==> entry.Some?)
    ensures r.Some? && entry.Some? ==> r.value.id == entry.value.id
  {
    if !IntendedSchemaAccepts(v) then None
    else if entry.Some? then Some(UpdateEntry(entry.value.id, Payload(v, isoDate)))
    else Some(CreateEntry(Payload(v, isoDate)))
  }

  /** Editing an entry shorter than an hour and saving it unchanged sends
      nothing as written, and resubmits the stored duration with the intended
      rule. */
  lemma ShortEntryResubmit(e: EditedEntry, projectId: Option<string>, now: string, isoDate: string)
    requires ValidMinutes(e.minutes) && 0 < e.minutes < 60 && e.projectId != "" && e.date != "" && e.date[0] != 'T'
    requires e.hourlyRate.Some? ==> e.hourlyRate.value >= 0.0
    ensures OnSubmit(Some(e), Prefill(Some(e), projectId, now), isoDate).None?
    ensures var r := IntendedOnSubmit(Some(e), Prefill(Some(e), projectId, now), isoDate);
      r.Some? && r.value.payload.minutes == e.minutes as real
  {
    PrefillUnderAnHourRejected(e, projectId, now);
    PrefillAcceptedIntended(e, projectId, now);
    PrefillRoundTrip(e, projectId, now);
  }

  /** A new entry is submitted billable unless the box is unticked. */
  lemma NewEntryBillable(projectId: Option<string>, now: string)
    ensures Prefill(None, projectId, now).billable
    ensures TotalMinutes(Prefill(None, projectId, now)) == 60.0
  {
  }

  // ---------------------------------------------------------------- state

  /** The component's state: the project whose tasks are listed and the form
      values; `locked` is a pre-selected project, which disables the select. */
  class EntryFormState {
    var selectedProjectId: string
    var values: FormValues
    const locked: bool

    /** The select shows the project whose tasks are loaded. */
    predicate Synced()
      reads this
    {
      selectedProjectId == values.projectId
    }

    constructor(entry: Option<EditedEntry>, projectId: Option<string>, now: string)
      ensures values == Prefill(entry, projectId, now) && Synced()
      ensures locked <==> projectId.Some? && projectId.value != ""
    {
      selectedProjectId := OrElse(if entry.Some? then entry.value.projectId else "", projectId.GetOr(""));
      values := Prefill(entry, projectId, now);
      locked := projectId.Some? && projectId.value != "";
    }

    /** `handleProjectChange`: the new project, and no task selected. */
    method HandleProjectChange(value: string)
      requires !locked
      modifies this
      ensures selectedProjectId == value && Synced()
      ensures values == old(values).(projectId := value, taskId := "")
    {
      selectedProjectId := value;
      values := values.(projectId := value, taskId := "");
    }
  }
}
