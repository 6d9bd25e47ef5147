/** The timer widget of the timesheet page: a start/pause/stop state machine
    whose ticks measure the seconds since the last start, shown as HH:MM:SS. */
module TimerWidget {
  import opened Wrappers
  import opened Text

  // ---------------------------------------------------------------- display

  /** The hour, minute and second fields of a duration in seconds. */
  function HoursOf(seconds: nat): nat { seconds / 3600 }
  function MinutesOf(seconds: nat): nat { (seconds % 3600) / 60 }
  function SecondsOf(seconds: nat): nat { seconds % 60 }

  /** `formatTime`: the three fields, each padded to at least two digits and
      joined by colons; the hours may run to more than two digits. */
  function FormatTime(seconds: nat): (r: string)
    ensures |r| >= 8 && r[|r| - 3] == ':' && r[|r| - 6] == ':'
    ensures r[..|r| - 6] == Pad2(Show(HoursOf(seconds)))
    ensures r[|r| - 5..|r| - 3] == Pad2(Show(MinutesOf(seconds)))
    ensures r[|r| - 2..] == Pad2(Show(SecondsOf(seconds)))
  {
    var h, m, s := Pad2(Show(HoursOf(seconds))), Pad2(Show(MinutesOf(seconds))), Pad2(Show(SecondsOf(seconds)));
    ShowPad2(MinutesOf(seconds));
    ShowPad2(SecondsOf(seconds));
    var r := h + ":" + m + ":" + s;
    assert r[..|r| - 6] == h;
    r
  }

  /** Each field, read back, is the field's value; minutes and seconds stay
      below 60; and together they make up the duration. */
  lemma FormatTimeFields(seconds: nat)
    ensures var r := FormatTime(seconds);
      && AllDigits(r[..|r| - 6]) && AllDigits(r[|r| - 5..|r| - 3]) && AllDigits(r[|r| - 2..])
      && ParseDigits(r[..|r| - 6]) == HoursOf(seconds)
      && ParseDigits(r[|r| - 5..|r| - 3]) == MinutesOf(seconds) < 60
      && ParseDigits(r[|r| - 2..]) == SecondsOf(seconds) < 60
      && HoursOf(seconds) * 3600 + MinutesOf(seconds) * 60 + SecondsOf(seconds) == seconds
  {
    FieldsAddUp(seconds);
    HoursField(seconds);
    MinutesField(seconds);
    SecondsField(seconds);
  }

  lemma HoursField(seconds: nat)
    ensures var r := FormatTime(seconds);
      AllDigits(r[..|r| - 6]) && ParseDigits(r[..|r| - 6]) == HoursOf(seconds)
  {
    ParseShow(HoursOf(seconds));
    ParsePad2(Show(HoursOf(seconds)));
  }

  lemma MinutesField(seconds: nat)
    requires MinutesOf(seconds) < 60
    ensures var r := FormatTime(seconds);
      AllDigits(r[|r| - 5..|r| - 3]) && ParseDigits(r[|r| - 5..|r| - 3]) == MinutesOf(seconds)
  {
    ShowPad2(MinutesOf(seconds));
  }

  lemma SecondsField(seconds: nat)
    requires SecondsOf(seconds) < 60
    ensures var r := FormatTime(seconds);
      AllDigits(r[|r| - 2..]) && ParseDigits(r[|r| - 2..]) == SecondsOf(seconds)
  {
    ShowPad2(SecondsOf(seconds));
  }

  lemma FieldsAddUp(seconds: nat)
    ensures MinutesOf(seconds) < 60 && SecondsOf(seconds) < 60
    ensures HoursOf(seconds) * 3600 + MinutesOf(seconds) * 60 + SecondsOf(seconds) == seconds
  {
    var rest := seconds % 3600;
    assert seconds == HoursOf(seconds) * 3600 + rest;
    assert rest == MinutesOf(seconds) * 60 + rest % 60;
    assert rest % 60 == seconds % 60 by {
      assert seconds == (HoursOf(seconds) * 60) * 60 + rest;
    }
  }

  /** Reading an `HH:MM:SS` text back into seconds. */
  function ParseTime(r: string): Option<nat> {
    if |r| < 8 || r[|r| - 3] != ':' || r[|r| - 6] != ':' then None
    else if !AllDigits(r[..|r| - 6]) || !AllDigits(r[|r| - 5..|r| - 3]) || !AllDigits(r[|r| - 2..]) then None
    else Some(ParseDigits(r[..|r| - 6]) * 3600 + ParseDigits(r[|r| - 5..|r| - 3]) * 60 + ParseDigits(r[|r| - 2..]))
  }

  /** The display loses nothing: parsing it gives back the duration. */
  lemma FormatTimeRoundTrip(seconds: nat)
    ensures ParseTime(FormatTime(seconds)) == Some(seconds)
  {
    FormatTimeFields(seconds);
  }

  // ---------------------------------------------------------------- controls

  /** The buttons the widget renders. */
  datatype Controls = Controls(start: bool, pause: bool, resume: bool, stop: bool)

  /** Start when idle, Pause while running, Resume when paused, and Stop & Save
      whenever time has been measured. */
  function ControlsOf(isRunning: bool, elapsed: int): (c: Controls)
    ensures c.start <==> !isRunning && elapsed == 0
    ensures c.pause <==> isRunning
    ensures c.resume <==> !isRunning && elapsed > 0
    ensures c.stop <==> elapsed > 0
  {
    Controls(!isRunning && elapsed == 0, isRunning, !isRunning && elapsed > 0, elapsed > 0)
  }

  /** With a measured time that is never negative, exactly one of Start, Pause
      and Resume is shown. */
  lemma OneMainControl(isRunning: bool, elapsed: int)
    requires elapsed >= 0
    ensures var c := ControlsOf(isRunning, elapsed);
      (if c.start then 1 else 0) + (if c.pause then 1 else 0) + (if c.resume then 1 else 0) == 1
  {
  }

  // ---------------------------------------------------------------- state

  /** The component's state; `logged` counts the calls of `onTimeLogged`.
      Instants are milliseconds, `elapsedTime` is seconds. */
  class Timer {
    var isRunning: bool
    var elapsedTime: int
    var startTime: Option<int>
    var logged: nat

    constructor()
      ensures !isRunning && elapsedTime == 0 && startTime == None && logged == 0
    {
      isRunning := false;
      elapsedTime := 0;
      startTime := None;
      logged := 0;
    }

    function Shown(): Controls
      reads this
    {
      ControlsOf(isRunning, elapsedTime)
    }

    /** `handleStart` (also the Resume button): running, from a fresh start
      time `now`; the shown time is kept until the next tick. */
    method HandleStart(now: int)
      modifies this
      ensures isRunning && startTime == Some(now)
      ensures elapsedTime == old(elapsedTime) && logged == old(logged)
    {
      isRunning := true;
      startTime := Some(now);
    }

    /** `handlePause`: not running; time and start time are kept. */
    method HandlePause()
      modifies this
      ensures !isRunning
      ensures elapsedTime == old(elapsedTime) && startTime == old(startTime) && logged == old(logged)
    {
      isRunning := false;
    }

    /** `handleStop`: back to idle, notifying the parent exactly when some time
      had been measured. */
    method HandleStop()
      modifies this
      ensures !isRunning && elapsedTime == 0 && startTime == None
      ensures logged == old(logged) + (if old(elapsedTime) > 0 then 1 else 0)
    {
      isRunning := false;
      if elapsedTime > 0 {
        logged := logged + 1;
      }
      elapsedTime := 0;
      startTime := None;
    }

    /** The interval callback at clock reading `now`: while running, the whole
      seconds since the start (`Math.floor` of a division by a positive number
      is Dafny's `/`); when stopped no interval is set and nothing changes. */
    method Tick(now: int)
      modifies this
      ensures isRunning && startTime.Some? ==> elapsedTime == (now - startTime.value) / 1000
      ensures !(isRunning && startTime.Some?) ==> elapsedTime == old(elapsedTime)
      ensures isRunning == old(isRunning) && startTime == old(startTime) && logged == old(logged)
    {
      if isRunning && startTime.Some? {
        elapsedTime := (now - startTime.value) / 1000;
      }
    }
  }

  /** Resuming restarts the measurement: after start at `t0`, a tick at `t1`,
      a pause and a resume at `t2`, a tick at `t3` shows only the seconds since
      `t2`; the seconds before the pause are not added. */
  method ResumeRestarts(t0: int, t1: int, t2: int, t3: int) returns (shown: int)
    ensures shown == (t3 - t2) / 1000
  {
    var timer := new Timer();
    timer.HandleStart(t0);
    timer.Tick(t1);
    timer.HandlePause();
    timer.HandleStart(t2);
    timer.Tick(t3);
    shown := timer.elapsedTime;
  }
}
