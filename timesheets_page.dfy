/** The timesheet page: the `h:mm` rendering of minutes, the seven days of the
    shown week, the quick timer, and the weekly grid whose cells split each
    day's minutes by project. */
module TimesheetsPage {
  import opened Wrappers
  import opened Seqs
  import opened Store
  import opened Text
  import opened Calendar
  import opened Grouping
  import opened TimesheetsService

  // ---------------------------------------------------------------- h:mm

  /** `formatHours`: whole hours, unpadded, a colon and the remaining minutes
      padded to two digits. */
  function FormatHours(minutes: nat): (r: string)
    ensures |r| >= 4 && r[|r| - 3] == ':'
    ensures r[..|r| - 3] == Show(minutes / 60)
    ensures r[|r| - 2..] == Pad2(Show(minutes % 60))
  {
    ShowPad2(minutes % 60);
    var r := Show(minutes / 60) + ":" + Pad2(Show(minutes % 60));
    assert r[..|r| - 3] == Show(minutes / 60);
    r
  }

  /** Reading an `h:mm` text back into minutes. */
  function ParseHours(r: string): Option<nat> {
    if |r| < 4 || r[|r| - 3] != ':' || !AllDigits(r[..|r| - 3]) || !AllDigits(r[|r| - 2..]) then None
    else Some(ParseDigits(r[..|r| - 3]) * 60 + ParseDigits(r[|r| - 2..]))
  }

  /** The rendering loses nothing, and its minute field is below 60. */
  lemma FormatHoursRoundTrip(minutes: nat)
    ensures var r := FormatHours(minutes);
      && ParseDigits(r[|r| - 2..]) == minutes % 60 < 60
      && ParseHours(r) == Some(minutes)
  {
    ParseShow(minutes / 60);
    ShowPad2(minutes % 60);
  }

  // ---------------------------------------------------------------- week

  /** The page's `getWeekStart` is `WeekStartMidnight`; a Sunday belongs to the
      week of the Monday six days before. */
  lemma PageWeekStartOfSunday(t: int)
    requires Weekday(t) == Sunday
    ensures DayNumber(WeekStartMidnight(t)) == DayNumber(t) - 6
  {
  }

  /** `getDaysOfWeek`: seven instants, the `i`-th `i` days after `weekStart`
      (`setDate(getDate() + i)` keeps the time of day). */
  method GetDaysOfWeek(weekStart: int) returns (days: seq<int>)
    ensures |days| == 7 && days[0] == weekStart
    ensures forall i :: 0 <= i < 7 ==> DayNumber(days[i]) == DayNumber(weekStart) + i
    ensures forall i :: 0 <= i < 7 ==> TimeOfDay(days[i]) == TimeOfDay(weekStart)
  {
    days := [];
    for i := 0 to 7
      invariant |days| == i
      invariant forall j :: 0 <= j < i ==> days[j] == weekStart + j * DayMs
    {
      days := days + [weekStart + i * DayMs];
    }
    forall i | 0 <= i < 7
      ensures DayNumber(days[i]) == DayNumber(weekStart) + i && TimeOfDay(days[i]) == TimeOfDay(weekStart)
    {
      ShiftDays(weekStart, i);
    }
  }

  /** The day numbers of `n` consecutive days from `first`. */
  function DayKeys(first: int, n: nat): (ks: seq<int>)
    ensures |ks| == n && forall j :: 0 <= j < n ==> ks[j] == first + j
  {
    if n == 0 then [] else DayKeys(first, n - 1) + [first + n - 1]
  }

  // ---------------------------------------------------------------- quick timer

  /** `Math.round(ms / 60000)`: the nearest whole minute, halves rounded up. */
  function RoundMinutes(ms: int): (r: int)
    ensures r * 60000 - 30000 <= ms < r * 60000 + 30000
  {
    (ms + 30000) / 60000
  }

  /** The rounding is the only such minute count. */
  lemma RoundMinutesUnique(ms: int, r: int)
    requires r * 60000 - 30000 <= ms < r * 60000 + 30000
    ensures r == RoundMinutes(ms)
  {
  }

  datatype StoppedTimer = StoppedTimer(projectId: Id, minutes: int)

  /** The quick timer's state; `stopped` collects what `stopTimer` reports. */
  class QuickTimer {
    var activeTimer: Option<Id>
    var timerStart: Option<int>
    var stopped: seq<StoppedTimer>

    constructor()
      ensures activeTimer == None && timerStart == None && stopped == []
    {
      activeTimer := None;
      timerStart := None;
      stopped := [];
    }

    /** `startTimer`: the project and the clock reading `now`. */
    method StartTimer(projectId: Id, now: int)
      modifies this
      ensures activeTimer == Some(projectId) && timerStart == Some(now) && stopped == old(stopped)
    {
      activeTimer := Some(projectId);
      timerStart := Some(now);
    }

    /** `stopTimer` at clock reading `now`: a running timer reports its rounded
      minutes; both fields are cleared whether or not a timer ran. */
    method StopTimer(now: int)
      modifies this
      ensures activeTimer == None && timerStart == None
      ensures old(activeTimer).Some? && old(timerStart).Some? ==>
        stopped == old(stopped) + [StoppedTimer(old(activeTimer).value, RoundMinutes(now - old(timerStart).value))]
      ensures !(old(activeTimer).Some? && old(timerStart).Some?) ==> stopped == old(stopped)
    {
      if activeTimer.Some? && timerStart.Some? {
        stopped := stopped + [StoppedTimer(activeTimer.value, RoundMinutes(now - timerStart.value))];
      }
      activeTimer := None;
      timerStart := None;
    }
  }

  // ---------------------------------------------------------------- grid

  /** A project/day cell: the minutes of that day's entries on the project, 0
      for a day without a bucket. */
  function Cell(daily: map<int, DayBucket>, day: int, projectId: Id): nat {
    if day in daily then Total(Only(daily[day].entries, ProjectKey, projectId), EntryMinutes) else 0
  }

  /** A cell of the totals row: the day's total minutes, 0 for a day without a
      bucket. */
  function DayTotal(daily: map<int, DayBucket>, day: int): nat {
    if day in daily then daily[day].totalMinutes else 0
  }

  /** The cells of one column, for the projects `ps` in row order. */
  function ColumnSum(daily: map<int, DayBucket>, day: int, ps: seq<Id>): nat {
    if ps == [] then 0 else Cell(daily, day, ps[0]) + ColumnSum(daily, day, ps[1..])
  }

  /** The cells of one row, for the days `ks` in column order. */
  function RowSum(daily: map<int, DayBucket>, ks: seq<int>, projectId: Id): nat {
    if ks == [] then 0 else Cell(daily, ks[0], projectId) + RowSum(daily, ks[1..], projectId)
  }

  /** A cell holds the entries of both its day and its project. */
  lemma CellIsGroup(xs: seq<Entry>, daily: map<int, DayBucket>, day: int, projectId: Id)
    requires DailyIs(daily, xs)
    ensures Cell(daily, day, projectId) == Total(Only(Only(xs, DayKey, day), ProjectKey, projectId), EntryMinutes)
  {
    if day !in daily {
      DayBucketEmpty(xs, day);
    }
  }

  lemma {:induction false} ColumnSumIsSumGroups(xs: seq<Entry>, daily: map<int, DayBucket>, day: int, ps: seq<Id>)
    requires DailyIs(daily, xs)
    ensures ColumnSum(daily, day, ps) == SumGroups(Only(xs, DayKey, day), ProjectKey, ps, EntryMinutes)
  {
    if ps != [] {
      CellIsGroup(xs, daily, day, ps[0]);
      ColumnSumIsSumGroups(xs, daily, day, ps[1..]);
    }
  }

  lemma {:induction false} RowSumIsSumGroups(xs: seq<Entry>, daily: map<int, DayBucket>, ks: seq<int>, projectId: Id)
    requires DailyIs(daily, xs)
    ensures RowSum(daily, ks, projectId) == SumGroups(Only(xs, ProjectKey, projectId), DayKey, ks, EntryMinutes)
  {
    if ks != [] {
      CellIsGroup(xs, daily, ks[0], projectId);
      OnlyCommute(xs, DayKey, ks[0], ProjectKey, projectId);
      RowSumIsSumGroups(xs, daily, ks[1..], projectId);
    }
  }

  /** Down each column, the project cells add up to the totals row, with the
      rows in the order of the project summary. */
  lemma ColumnAddsUp(xs: seq<Entry>, daily: map<int, DayBucket>, day: int)
    requires DailyIs(daily, xs)
    ensures ColumnSum(daily, day, KeysOf(xs, ProjectKey)) == DayTotal(daily, day)
  {
    var ps := KeysOf(xs, ProjectKey);
    ColumnSumIsSumGroups(xs, daily, day, ps);
    var g := Only(xs, DayKey, day);
    KeysOfCovers(xs, ProjectKey);
    forall i | 0 <= i < |g| ensures ProjectKey(g[i]) in ps {
      var j :| 0 <= j < |xs| && xs[j] == g[i];
      assert ProjectKey(xs[j]) in ps;
    }
    GroupsPartitionTotal(g, ProjectKey, ps, EntryMinutes);
    if day !in daily {
      DayBucketEmpty(xs, day);
    }
  }

  /** The entries of a summarised week fall on its seven days. */
  lemma WeekEntriesOnWeekDays(s: Store, org: Id, userId: Option<Id>, start: int)
    ensures var xs := WeekEntries(s, org, userId, start, WeekEnd(start));
      forall i :: 0 <= i < |xs| ==> DayKey(xs[i]) in DayKeys(DayNumber(start), 7)
  {
    var xs := WeekEntries(s, org, userId, start, WeekEnd(start));
    var ks := DayKeys(DayNumber(start), 7);
    forall i | 0 <= i < |xs| ensures DayKey(xs[i]) in ks {
      var d := DayKey(xs[i]);
      assert DayNumber(start) <= d <= DayNumber(start) + 6;
      assert ks[d - DayNumber(start)] == d;
    }
  }

  /** Along each row of the shown week, the day cells add up to the project's
      total, when every entry falls on one of the seven days. */
  lemma RowAddsUp(xs: seq<Entry>, daily: map<int, DayBucket>, first: int, projectId: Id)
    requires DailyIs(daily, xs)
    requires forall i :: 0 <= i < |xs| ==> DayKey(xs[i]) in DayKeys(first, 7)
    ensures RowSum(daily, DayKeys(first, 7), projectId) == ProjectBucketOf(xs, projectId).totalMinutes
  {
    var ks := DayKeys(first, 7);
    RowSumIsSumGroups(xs, daily, ks, projectId);
    var g := Only(xs, ProjectKey, projectId);
    forall i | 0 <= i < |g| ensures DayKey(g[i]) in ks {
      var j :| 0 <= j < |xs| && xs[j] == g[i];
    }
    GroupsPartitionTotal(g, DayKey, ks, EntryMinutes);
  }
}
