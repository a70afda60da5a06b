/**
 * The PomodoroTimer class of app.js (lines 1-302), restricted to the fields and methods
 * that carry the timer logic. Each method updates the fields step by step as the source
 * does and is proved to perform the transition its function in TimerModel describes.
 */
module Pomodoro {
  import opened Wrappers
  import opened TimerModel
  import opened TimerDisplay

  class PomodoroTimer {
    var currentTime: int
    var isWorkMode: bool
    var isRunning: bool
    var completedSessions: int

    /** The fields as a TimerState value. */
    function State(): TimerState
      reads this
    {
      TimerState(currentTime, isWorkMode, isRunning, completedSessions)
    }

    /** The settings part of the constructor (app.js:7-14). */
    constructor ()
      ensures State() == Initial() && InPeriod(State())
    {
      completedSessions := 0;
      currentTime := WorkTime;
      isWorkMode := true;
      isRunning := false;
    }

    /** startTimer (app.js:178-192) as far as the fields go; the interval is the caller's. */
    method StartTimer()
      modifies this
      ensures State() == Started(old(State()))
    {
      isRunning := true;
    }

    /** pauseTimer (app.js:195-200). */
    method PauseTimer()
      modifies this
      ensures State() == Paused(old(State()))
    {
      isRunning := false;
    }

    /** toggleTimer (app.js:170-176). */
    method ToggleTimer()
      modifies this
      ensures State() == Toggled(old(State()))
    {
      if isRunning {
        PauseTimer();
      } else {
        StartTimer();
      }
    }

    /** resetTimer (app.js:202-210). */
    method ResetTimer()
      modifies this
      ensures State() == ResetState(old(State())) && State() == Initial()
    {
      PauseTimer();
      isWorkMode := true;
      currentTime := WorkTime;
      completedSessions := 0;
    }

    /** switchMode (app.js:212-233), with its always-true inner test kept. */
    method SwitchMode()
      modifies this
      ensures State() == Switched(old(State()))
    {
      isWorkMode := !isWorkMode;
      if isWorkMode {
        currentTime := WorkTime;
      } else {
        if isWorkMode == false {
          completedSessions := completedSessions + 1;
        }
        if completedSessions % SessionsBeforeLongBreak == 0 {
          currentTime := LongBreakTime;
        } else {
          currentTime := ShortBreakTime;
        }
      }
    }

    /** The interval callback of startTimer (app.js:183-192); it fires only while running. */
    method Tick()
      requires isRunning
      modifies this
      ensures State() == Ticked(old(State()))
      ensures currentTime >= 1
    {
      currentTime := currentTime - 1;
      if currentTime <= 0 {
        SwitchMode();
      }
    }

    /** saveTimerState (app.js:257-266): the record written, with the clock reading `now`. */
    method SaveTimerState(now: int) returns (rec: SavedState)
      ensures rec == Snapshot(State(), now)
      ensures forall later :: later - now < 1000 ==> Restored(Initial(), Some(rec), later) == State()
    {
      rec := SavedState(currentTime, isWorkMode, isRunning, Some(now), Some(completedSessions));
      forall later | later - now < 1000
        ensures Restored(Initial(), Some(rec), later) == State()
      {
        RestoreSnapshot(State(), now, later);
      }
    }

    /** restoreTimerState (app.js:268-291); `saved` is None when nothing was stored. */
    method RestoreTimerState(saved: Option<SavedState>, now: int)
      modifies this
      ensures State() == Restored(old(State()), saved, now)
    {
      if saved.Some? {
        var state := saved.value;
        var elapsed := if state.lastTimestamp.Some? && state.lastTimestamp.value != 0
          then (now - state.lastTimestamp.value) / 1000 else 0;
        isWorkMode := state.isWorkMode;
        isRunning := state.isRunning;
        completedSessions :=
          if state.completedSessions.Some? && state.completedSessions.value != 0
          then state.completedSessions.value else 0;
        if isRunning && elapsed > 0 {
          currentTime := if state.currentTime - elapsed > 0 then state.currentTime - elapsed else 0;
          if currentTime == 0 {
            SwitchMode();
          }
        } else {
          currentTime := state.currentTime;
        }
      }
    }

    /** updateDisplay (app.js:235-246): the timer text and the mode indicator. */
    method UpdateDisplay() returns (text: string, indicator: string)
      ensures text == ClockText(currentTime) && indicator == ModeLabel(State())
      ensures currentTime >= 0 ==> ReadsBackAs(text, currentTime)
    {
      var minutes := currentTime / 60;
      var seconds := if currentTime >= 0 then currentTime % 60 else -((-currentTime) % 60);
      text := PadStart(IntToString(minutes), 2, '0') + ":" + PadStart(IntToString(seconds), 2, '0');
      assert text == ClockText(currentTime) by {
        assert seconds == JsRemainder(currentTime, 60);
      }
      if isWorkMode {
        indicator := WorkLabelAsWritten(completedSessions);
      } else {
        indicator := BreakLabel(completedSessions);
      }
      if currentTime >= 0 {
        assert ReadsBackAs(text, currentTime) by {
          ClockTextReadsBack(currentTime);
        }
      }
    }
  }

  /** A timer left running through a whole work period lands in the first short break. */
  method FirstPeriodScenario() returns (t: PomodoroTimer)
    ensures fresh(t) && t.State() == TimerState(ShortBreakTime, false, true, 1)
  {
    t := new PomodoroTimer();
    t.ToggleTimer();
    var i := 0;
    while i < WorkTime
      invariant 0 <= i <= WorkTime
      invariant t.isRunning
      invariant t.State() == Ticks(Started(Initial()), i)
    {
      TicksCompose(Started(Initial()), i, 1);
      t.Tick();
      i := i + 1;
    }
    FirstWorkPeriod();
  }
}
