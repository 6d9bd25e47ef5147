/** The project request bodies and the `ProjectStatus` enum. The update body is
    taken to be every field of the create body, each optional. */
module ProjectDto {
  import opened Wrappers
  import EntryDto

  datatype ProjectStatus = Planned | Active | OnHold | Completed | Cancelled

  function ProjectStatusName(s: ProjectStatus): string {
    match s
    case Planned => "PLANNED"
    case Active => "ACTIVE"
    case OnHold => "ON_HOLD"
    case Completed => "COMPLETED"
    case Cancelled => "CANCELLED"
  }

  /** `@IsEnum(ProjectStatus)`. */
  function ParseProjectStatus(raw: string): (r: Option<ProjectStatus>)
    ensures r.Some? ==> ProjectStatusName(r.value) == raw
    ensures r.None? ==> raw !in {"PLANNED", "ACTIVE", "ON_HOLD", "COMPLETED", "CANCELLED"}
  {
    if raw == "PLANNED" then Some(Planned)
    else if raw == "ACTIVE" then Some(Active)
    else if raw == "ON_HOLD" then Some(OnHold)
    else if raw == "COMPLETED" then Some(Completed)
    else if raw == "CANCELLED" then Some(Cancelled)
    else None
  }

  /** Reading the enum back is the inverse of writing it. */
  lemma ParseProjectStatusRoundTrip(raw: string, s: ProjectStatus)
    ensures ParseProjectStatus(raw) == Some(s) <==> raw == ProjectStatusName(s)
  {
  }

  const DefaultProjectStatus: ProjectStatus := Planned

  datatype CreateProjectDto = CreateProjectDto(
    name: string,
    code: string,
    description: Option<string>,
    clientId: Option<string>,
    status: Option<string>,
    budgetHours: Option<int>,
    budgetAmount: Option<real>,
    hourlyRate: Option<real>,
    startDate: Option<int>,
    endDate: Option<int>,
    color: Option<string>)

  datatype UpdateProjectDto = UpdateProjectDto(
    name: Option<string>,
    code: Option<string>,
    description: Option<string>,
    clientId: Option<string>,
    status: Option<string>,
    budgetHours: Option<int>,
    budgetAmount: Option<real>,
    hourlyRate: Option<real>,
    startDate: Option<int>,
    endDate: Option<int>,
    color: Option<string>)

  predicate IsHexDigit(c: char) {
    '0' <= c <= '9' || 'a' <= c <= 'f' || 'A' <= c <= 'F'
  }

  /** The digits of a colour: the text after an optional leading `#`. */
  function ColorDigits(s: string): string {
    if |s| > 0 && s[0] == '#' then s[1..] else s
  }

  /** `@IsHexColor()`: an optional `#` and then 3, 4, 6 or 8 hexadecimal
      digits of either case. */
  predicate IsHexColor(s: string) {
    && |ColorDigits(s)| in {3, 4, 6, 8}
    && forall i :: 0 <= i < |ColorDigits(s)| ==> IsHexDigit(ColorDigits(s)[i])
  }

  /** The leading `#` is optional: a colour is accepted with it exactly when it
      is accepted without it. */
  lemma HashOptional(digits: string)
    requires |digits| == 0 || digits[0] != '#'
    ensures IsHexColor("#" + digits) <==> IsHexColor(digits)
  {
    assert ("#" + digits)[0] == '#' && ("#" + digits)[1..] == digits;
  }

  /** Short and long forms pass; five digits or a colour name do not. */
  lemma HexColorExamples()
    ensures IsHexColor("#fff") && IsHexColor("1A2b3C") && IsHexColor("#1a2b3c4d")
    ensures !IsHexColor("#12345") && !IsHexColor("red")
  {
    assert ColorDigits("#fff") == "fff" && ColorDigits("1A2b3C") == "1A2b3C";
    assert ColorDigits("#1a2b3c4d") == "1a2b3c4d" && ColorDigits("#12345") == "12345";
    assert ColorDigits("red") == "red" && !IsHexDigit(ColorDigits("red")[0]);
  }

  predicate ValidFields(status: Option<string>, budgetHours: Option<int>,
                        budgetAmount: Option<real>, hourlyRate: Option<real>, color: Option<string>)
  {
    && (status.Some? ==> ParseProjectStatus(status.value).Some?)
    && (budgetHours.Some? ==> budgetHours.value >= 0)
    && EntryDto.ValidAmount(budgetAmount)
    && EntryDto.ValidAmount(hourlyRate)
    && (color.Some? ==> IsHexColor(color.value))
  }

  predicate ValidCreateProject(d: CreateProjectDto) {
    ValidFields(d.status, d.budgetHours, d.budgetAmount, d.hourlyRate, d.color)
  }

  predicate ValidUpdateProject(d: UpdateProjectDto) {
    ValidFields(d.status, d.budgetHours, d.budgetAmount, d.hourlyRate, d.color)
  }

  /** The status a new project gets: the one given, PLANNED when none is. */
  function CreatedProjectStatus(d: CreateProjectDto): (s: ProjectStatus)
    requires ValidCreateProject(d)
    ensures ProjectStatusName(s) == d.status.GetOr("PLANNED")
    ensures d.status.None? ==> s == DefaultProjectStatus
  {
    if d.status.Some? then ParseProjectStatus(d.status.value).value else DefaultProjectStatus
  }
}
