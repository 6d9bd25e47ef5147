/** Instants as integer milliseconds since 1970-01-01T00:00:00Z, with the local
    time zone taken to be UTC, so that a local calendar day and the
    `toISOString()` day agree. */
module Calendar {

  const DayMs: int := 24 * 60 * 60 * 1000

  /** The day an instant falls on, counted from 1970-01-01 (day 0). */
  function DayNumber(t: int): int {
    t / DayMs
  }

  function TimeOfDay(t: int): (r: int)
    ensures 0 <= r < DayMs
  {
    t % DayMs
  }

  /** `getDay()`: 0 is Sunday, 1 Monday, ..., 6 Saturday; day 0 was a Thursday. */
  function Weekday(t: int): (d: int)
    ensures 0 <= d < 7
  {
    (DayNumber(t) + 4) % 7
  }

  const Sunday := 0
  const Monday := 1

  lemma ShiftDays(t: int, k: int)
    ensures DayNumber(t + k * DayMs) == DayNumber(t) + k
    ensures TimeOfDay(t + k * DayMs) == TimeOfDay(t)
  {
  }

  /** The day offset `getWeekStart` applies through `setDate`:
      `- day + (day === 0 ? -6 : 1)`. */
  function MondayOffset(day: int): int {
    -day + (if day == 0 then -6 else 1)
  }

  /** The backend's `getWeekStart`: the instant moved back to the Monday of its
      week (a Sunday belongs to the week that started six days earlier), with
      its time of day kept. */
  function WeekStart(t: int): (r: int)
    ensures Weekday(r) == Monday
    ensures r <= t < r + 7 * DayMs
    ensures TimeOfDay(r) == TimeOfDay(t)
    ensures Weekday(t) == Sunday ==> r == t - 6 * DayMs
  {
    var k := MondayOffset(Weekday(t));
    ShiftDays(t, k);
    t + k * DayMs
  }

  /** The frontend's `getWeekStart`, which also calls `setHours(0, 0, 0, 0)`:
      midnight at the start of that Monday. */
  function WeekStartMidnight(t: int): (r: int)
    ensures Weekday(r) == Monday && TimeOfDay(r) == 0
    ensures r <= t < r + 7 * DayMs
    ensures DayNumber(r) == DayNumber(WeekStart(t))
  {
    DayNumber(WeekStart(t)) * DayMs
  }

  /** The end of a summarised week: `setDate(getDate() + 6)` and then
      `setHours(23, 59, 59, 999)`, the last millisecond of the sixth day after
      the day of `start`. */
  function WeekEnd(start: int): (r: int)
    ensures DayNumber(r) == DayNumber(start) + 6 && TimeOfDay(r) == DayMs - 1
  {
    (DayNumber(start) + 6) * DayMs + DayMs - 1
  }
}
