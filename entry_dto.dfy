/** The timesheet entry request bodies (`CreateTimesheetEntryDto`,
    `UpdateTimesheetEntryDto`). */
module EntryDto {
  import opened Wrappers

  /** `@Max(24 * 60)`: at most a day per entry. */
  const MaxEntryMinutes := 24 * 60

  /** `@IsNumber({ maxDecimalPlaces: 2 })` on an exact value. */
  predicate TwoDecimals(x: real) {
    (x * 100.0).Floor as real == x * 100.0
  }

  /** `@Min(0)` together with two decimal places: a money amount. */
  predicate ValidAmount(x: Option<real>) {
    x.Some? ==> x.value >= 0.0 && TwoDecimals(x.value)
  }

  datatype CreateEntryDto = CreateEntryDto(
    projectId: string,
    taskId: Option<string>,
    date: int,
    minutes: int,
    billable: Option<bool>,
    hourlyRate: Option<real>,
    notes: Option<string>)

  /** Every field but `projectId`, each optional. */
  datatype UpdateEntryDto = UpdateEntryDto(
    taskId: Option<string>,
    date: Option<int>,
    minutes: Option<int>,
    billable: Option<bool>,
    hourlyRate: Option<real>,
    notes: Option<string>)

  predicate ValidMinutes(m: int) {
    1 <= m <= MaxEntryMinutes
  }

  predicate ValidCreateEntry(d: CreateEntryDto) {
    ValidMinutes(d.minutes) && ValidAmount(d.hourlyRate)
  }

  predicate ValidUpdateEntry(d: UpdateEntryDto) {
    (d.minutes.Some? ==> ValidMinutes(d.minutes.value)) && ValidAmount(d.hourlyRate)
  }

  /** An entry is billable unless the request says otherwise. */
  function CreatedBillable(d: CreateEntryDto): (b: bool)
    ensures b <==> d.billable != Some(false)
  {
    d.billable.GetOr(true)
  }

  /** A whole number of hundredths. */
  function Cents(n: int): real {
    n as real / 100.0
  }

  /** A value has at most two decimal places exactly when it is a whole number
      of hundredths. */
  lemma TwoDecimalsIsCents(x: real)
    ensures TwoDecimals(x) <==> exists n: int :: Cents(n) == x
  {
    if TwoDecimals(x) {
      assert Cents((x * 100.0).Floor) == x;
    }
  }

  /** A rate of 12.345 has three decimals and is refused; 12.34 is accepted. */
  lemma RateDecimals()
    ensures !TwoDecimals(12.345) && TwoDecimals(12.34)
  {
    assert 12.345 * 100.0 == 1234.5;
    assert (1234.5).Floor == 1234;
    assert 12.34 * 100.0 == 1234.0;
  }
}
