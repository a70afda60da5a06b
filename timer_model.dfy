/**
 * The Pomodoro timer of app.js as values: its state, each of its transitions as a
 * function on states, the record it persists, and the reconciliation it performs when
 * the page is loaded again. The class in module Pomodoro is proved against these.
 */
module TimerModel {
  import opened Wrappers

  /** Durations in seconds and the long-break threshold (app.js:7-10). */
  const WorkTime: int := 25 * 60
  const ShortBreakTime: int := 5 * 60
  const LongBreakTime: int := 10 * 60
  const SessionsBeforeLongBreak: int := 4

  /** The fields of PomodoroTimer that the timer logic reads and writes (app.js:11-14). */
  datatype TimerState = TimerState(
    currentTime: int,
    isWorkMode: bool,
    isRunning: bool,
    completedSessions: int)

  /** The state of a freshly constructed timer. */
  function Initial(): TimerState
  {
    TimerState(WorkTime, true, false, 0)
  }

  /**
   * `completedSessions % sessionsBeforeLongBreak === 0`. JavaScript's `%` truncates and
   * Dafny's is Euclidean, but both are zero exactly on the multiples, so the test agrees
   * for every integer.
   */
  predicate IsLongBreak(completedSessions: int)
  {
    completedSessions % SessionsBeforeLongBreak == 0
  }

  /** Length of the period a timer in the given mode counts down from. */
  function PeriodLength(isWorkMode: bool, completedSessions: int): int
  {
    if isWorkMode then WorkTime
    else if IsLongBreak(completedSessions) then LongBreakTime
    else ShortBreakTime
  }

  /** The state invariant: the countdown lies within the current period. */
  predicate InPeriod(s: TimerState)
  {
    0 <= s.currentTime <= PeriodLength(s.isWorkMode, s.completedSessions)
  }

  /** switchMode (app.js:212-229): alternate work and break, counting finished work periods. */
  function Switched(s: TimerState): (r: TimerState)
    ensures r.isWorkMode == !s.isWorkMode && r.isRunning == s.isRunning
    ensures s.isWorkMode ==>
      && r.completedSessions == s.completedSessions + 1
      && (r.currentTime == LongBreakTime <==> r.completedSessions % 4 == 0)
      && (r.currentTime == ShortBreakTime <==> r.completedSessions % 4 != 0)
    ensures !s.isWorkMode ==>
      r.completedSessions == s.completedSessions && r.currentTime == WorkTime
    ensures r.currentTime == PeriodLength(r.isWorkMode, r.completedSessions)
  {
    if s.isWorkMode then
      var n := s.completedSessions + 1;
      s.(isWorkMode := false, completedSessions := n,
         currentTime := if IsLongBreak(n) then LongBreakTime else ShortBreakTime)
    else
      s.(isWorkMode := true, currentTime := WorkTime)
  }

  /**
   * One firing of the interval callback (app.js:183-192): count down one second, and
   * switch mode instead of letting the countdown reach zero or below.
   */
  function Ticked(s: TimerState): (r: TimerState)
    ensures r.currentTime >= 1 && r.isRunning == s.isRunning
    ensures s.currentTime > 1 ==> r == s.(currentTime := s.currentTime - 1)
    ensures s.currentTime <= 1 ==>
      && r.isWorkMode != s.isWorkMode
      && r.currentTime == PeriodLength(r.isWorkMode, r.completedSessions)
  {
    var d := s.(currentTime := s.currentTime - 1);
    if d.currentTime <= 0 then Switched(d) else d
  }

  /** startTimer (app.js:178-181) as far as the timer state is concerned. */
  function Started(s: TimerState): (r: TimerState)
    ensures r.isRunning && r.(isRunning := s.isRunning) == s
  {
    s.(isRunning := true)
  }

  /** pauseTimer (app.js:195-196): only the running flag changes. */
  function Paused(s: TimerState): (r: TimerState)
    ensures !r.isRunning && r.(isRunning := s.isRunning) == s
  {
    s.(isRunning := false)
  }

  /** toggleTimer (app.js:170-176). */
  function Toggled(s: TimerState): (r: TimerState)
    ensures r.isRunning == !s.isRunning && r.(isRunning := s.isRunning) == s
  {
    if s.isRunning then Paused(s) else Started(s)
  }

  /** resetTimer (app.js:202-206): pause, then return to the first work period. */
  function ResetState(s: TimerState): (r: TimerState)
    ensures r == Initial()
  {
    Paused(s).(isWorkMode := true, currentTime := WorkTime, completedSessions := 0)
  }

  /** A run of n ticks with no other event in between. */
  function Ticks(s: TimerState, n: nat): TimerState
    decreases n
  {
    if n == 0 then s else Ticks(Ticked(s), n - 1)
  }

  // ---------------------------------------------------------------------------
  // Persistence: the record saveTimerState writes and restoreTimerState reads.
  // ---------------------------------------------------------------------------

  /**
   * The parsed `timerState` record (app.js:258-264). A record written by another
   * version of the page may lack the timestamp or the session count.
   */
  datatype SavedState = SavedState(
    currentTime: int,
    isWorkMode: bool,
    isRunning: bool,
    lastTimestamp: Option<int>,
    completedSessions: Option<int>)

  /** saveTimerState (app.js:257-264), with the clock reading passed in as `now`. */
  function Snapshot(s: TimerState, now: int): (rec: SavedState)
    ensures rec.lastTimestamp == Some(now) && rec.completedSessions == Some(s.completedSessions)
    ensures rec.currentTime == s.currentTime && rec.isWorkMode == s.isWorkMode
    ensures rec.isRunning == s.isRunning
  {
    SavedState(s.currentTime, s.isWorkMode, s.isRunning, Some(now), Some(s.completedSessions))
  }

  /**
   * `state.lastTimestamp ? Math.floor((now - state.lastTimestamp) / 1000) : 0`
   * (app.js:275): a missing timestamp and the timestamp 0 are both falsy. Dafny's `/`
   * by a positive divisor rounds down, as Math.floor does.
   */
  function ElapsedSeconds(lastTimestamp: Option<int>, now: int): (e: int)
    ensures (lastTimestamp.None? || lastTimestamp == Some(0)) ==> e == 0
    ensures lastTimestamp.Some? && lastTimestamp.value != 0 ==>
      e * 1000 <= now - lastTimestamp.value < e * 1000 + 1000
  {
    if lastTimestamp.Some? && lastTimestamp.value != 0 then (now - lastTimestamp.value) / 1000
    else 0
  }

  /** `state.completedSessions || 0` (app.js:279): a missing count becomes 0. */
  function SessionsOrZero(completedSessions: Option<int>): (n: int)
    ensures completedSessions.None? ==> n == 0
    ensures completedSessions.Some? ==> n == completedSessions.value
  {
    if completedSessions.Some? && completedSessions.value != 0 then completedSessions.value else 0
  }

  /** The state restoreTimerState adopts from a record before it looks at elapsed time. */
  function Adopted(rec: SavedState): TimerState
  {
    TimerState(rec.currentTime, rec.isWorkMode, rec.isRunning, SessionsOrZero(rec.completedSessions))
  }

  /**
   * restoreTimerState (app.js:268-291). With no saved record nothing changes. A running
   * timer loses the whole seconds elapsed since the record was written, clamped at 0,
   * and a countdown that reached 0 switches mode once; otherwise the saved countdown
   * is copied. Mode, running flag and session count are always taken from the record.
   */
  function Restored(s: TimerState, saved: Option<SavedState>, now: int): (r: TimerState)
    ensures saved.None? ==> r == s
    ensures saved.Some? ==> r.isRunning == saved.value.isRunning
    ensures saved.Some? ==>
      var rec := saved.value;
      var e := ElapsedSeconds(rec.lastTimestamp, now);
      var n := SessionsOrZero(rec.completedSessions);
      && (!(rec.isRunning && e > 0) ==> r == Adopted(rec))
      && (rec.isRunning && e > 0 && rec.currentTime > e ==>
            r == Adopted(rec).(currentTime := rec.currentTime - e))
      && (rec.isRunning && e > 0 && rec.currentTime <= e ==>
            && r.isWorkMode == !rec.isWorkMode
            && r.completedSessions == (if rec.isWorkMode then n + 1 else n)
            && r.currentTime == PeriodLength(r.isWorkMode, r.completedSessions))
  {
    match saved
    case None => s
    case Some(rec) =>
      var elapsed := ElapsedSeconds(rec.lastTimestamp, now);
      var adopted := Adopted(rec);
      if rec.isRunning && elapsed > 0 then
        var remaining := if rec.currentTime - elapsed > 0 then rec.currentTime - elapsed else 0;
        if remaining == 0 then Switched(adopted.(currentTime := 0))
        else adopted.(currentTime := remaining)
      else
        adopted
  }

  // ---------------------------------------------------------------------------
  // Properties relating several transitions.
  // ---------------------------------------------------------------------------

  /** Pausing a paused timer changes nothing (app.js:195-200). */
  lemma PauseIdempotent(s: TimerState)
    ensures Paused(Paused(s)) == Paused(s)
  {
  }

  /** Two presses of the play/pause button restore the state. */
  lemma ToggleTwice(s: TimerState)
    ensures Toggled(Toggled(s)) == s
  {
  }

  /** Work and break alternate: a break always ends in a full work period with the same count. */
  lemma BreakThenWork(s: TimerState)
    requires s.isWorkMode
    ensures Switched(Switched(s)) == s.(currentTime := WorkTime, completedSessions := s.completedSessions + 1)
  {
  }

  /**
   * A tick keeps the countdown within its period, and changes the session count only
   * when it ends a work period, by one.
   */
  lemma TickKeepsInvariant(s: TimerState)
    ensures InPeriod(s) ==> InPeriod(Ticked(s))
    ensures Ticked(s).completedSessions != s.completedSessions ==>
      && s.isWorkMode && !Ticked(s).isWorkMode
      && Ticked(s).completedSessions == s.completedSessions + 1
  {
  }

  /** Ticks compose: a run of a + b ticks is a run of a ticks followed by one of b. */
  lemma {:induction false} TicksCompose(s: TimerState, a: nat, b: nat)
    ensures Ticks(s, a + b) == Ticks(Ticks(s, a), b)
    decreases a
  {
    if a > 0 {
      TicksCompose(Ticked(s), a - 1, b);
    }
  }

  /** Fewer ticks than the countdown shows only count down: mode and sessions stay. */
  lemma {:induction false} TicksWithinPeriod(s: TimerState, n: nat)
    requires n < s.currentTime
    ensures Ticks(s, n) == s.(currentTime := s.currentTime - n)
    decreases n
  {
    if n > 0 {
      TicksWithinPeriod(Ticked(s), n - 1);
    }
  }

  /** As many ticks as the countdown shows end the period with exactly one switch. */
  lemma {:induction false} TicksToExpiry(s: TimerState)
    requires s.currentTime >= 1
    ensures Ticks(s, s.currentTime) == Switched(s.(currentTime := 0))
    decreases s.currentTime
  {
    var next := Ticked(s);
    assert Ticks(s, s.currentTime) == Ticks(next, s.currentTime - 1);
    if s.currentTime > 1 {
      assert next == s.(currentTime := s.currentTime - 1);
      TicksToExpiry(next);
    }
  }

  /**
   * A full work period followed by its break brings the timer back to the start of a
   * work period with one more completed session.
   */
  lemma FullCycle(s: TimerState)
    requires s.isWorkMode && s.currentTime == WorkTime
    ensures Ticks(s, WorkTime + PeriodLength(false, s.completedSessions + 1))
      == s.(completedSessions := s.completedSessions + 1)
  {
    var b := PeriodLength(false, s.completedSessions + 1);
    var brk := Switched(s.(currentTime := 0));
    assert Ticks(s, WorkTime) == brk by {
      TicksToExpiry(s);
    }
    assert brk.currentTime == b && !brk.isWorkMode;
    assert Ticks(brk, b) == s.(completedSessions := s.completedSessions + 1) by {
      TicksToExpiry(brk);
    }
    TicksCompose(s, WorkTime, b);
  }

  /** Seconds of running for n full work-and-break cycles, starting with k sessions counted. */
  function CyclesDuration(k: int, n: nat): nat
  {
    if n == 0 then 0 else CyclesDuration(k, n - 1) + WorkTime + PeriodLength(false, k + n)
  }

  /** n full work-and-break cycles end at a full work period with n more sessions. */
  lemma {:induction false} CyclesReached(w: TimerState, n: nat)
    requires w.isWorkMode && w.currentTime == WorkTime
    ensures Ticks(w, CyclesDuration(w.completedSessions, n))
      == w.(completedSessions := w.completedSessions + n)
  {
    if n > 0 {
      var k := w.completedSessions;
      var d := CyclesDuration(k, n - 1);
      var c := WorkTime + PeriodLength(false, k + n);
      var v := Ticks(w, d);
      assert v == w.(completedSessions := k + n - 1) by {
        CyclesReached(w, n - 1);
      }
      assert Ticks(v, c) == w.(completedSessions := k + n) by {
        FullCycle(v);
      }
      assert Ticks(w, d + c) == Ticks(v, c) by {
        TicksCompose(w, d, c);
      }
    }
  }

  /** After n full cycles, the next work period ends in the break for session k + n + 1. */
  lemma BreakAfterCycles(w: TimerState, n: nat)
    requires w.isWorkMode && w.currentTime == WorkTime
    ensures
      Ticks(w, CyclesDuration(w.completedSessions, n) + WorkTime)
      == w.(isWorkMode := false, completedSessions := w.completedSessions + n + 1,
            currentTime := PeriodLength(false, w.completedSessions + n + 1))
  {
    var k := w.completedSessions;
    var d := CyclesDuration(k, n);
    var v := Ticks(w, d);
    assert v == w.(completedSessions := k + n) by {
      CyclesReached(w, n);
    }
    assert Ticks(v, WorkTime) == Switched(v.(currentTime := 0)) by {
      TicksToExpiry(v);
    }
    assert Ticks(w, d + WorkTime) == Ticks(v, WorkTime) by {
      TicksCompose(w, d, WorkTime);
    }
  }

  /**
   * From a fresh start, after n work periods have finished the timer is in work mode with
   * n sessions counted, and the break after the (n+1)-th work period is long exactly when
   * n + 1 is a multiple of 4.
   */
  lemma LongBreakEveryFourth(n: nat)
    ensures Ticks(Started(Initial()), CyclesDuration(0, n)) == TimerState(WorkTime, true, true, n)
    ensures Ticks(Started(Initial()), CyclesDuration(0, n) + WorkTime)
      == TimerState(PeriodLength(false, n + 1), false, true, n + 1)
    ensures PeriodLength(false, n + 1) == LongBreakTime <==> (n + 1) % SessionsBeforeLongBreak == 0
  {
    var w := Started(Initial());
    assert w == TimerState(WorkTime, true, true, 0);
    CyclesReached(w, n);
    BreakAfterCycles(w, n);
    assert IsLongBreak(n + 1) <==> (n + 1) % SessionsBeforeLongBreak == 0;
  }

  /** 1500 ticks from a fresh start: first short break, one session counted. */
  lemma FirstWorkPeriod()
    ensures Ticks(Started(Initial()), 1500) == TimerState(300, false, true, 1)
  {
    LongBreakEveryFourth(0);
    assert CyclesDuration(0, 0) + WorkTime == 1500;
  }

  /** The fourth work period of a fresh timer ends in a 600-second long break. */
  lemma FourthWorkPeriod()
    ensures Ticks(Started(Initial()), 4 * 1500 + 3 * 300) == TimerState(600, false, true, 4)
  {
    LongBreakEveryFourth(3);
    assert CyclesDuration(0, 3) == 3 * 1500 + 3 * 300;
  }

  /** Restoring a record written less than a second ago gives back the saved state. */
  lemma RestoreSnapshot(s: TimerState, t: int, now: int)
    requires now - t < 1000
    ensures Restored(Initial(), Some(Snapshot(s, t)), now) == s
  {
  }

  /**
   * A running timer saved with 10 seconds left and reloaded 15 seconds later switches
   * once: the overshoot is not taken off the new period.
   */
  lemma RestoreSwitchesOnce(t: int)
    requires t != 0
    ensures
      var rec := SavedState(10, true, true, Some(t), Some(0));
      Restored(Initial(), Some(rec), t + 15000) == TimerState(ShortBreakTime, false, true, 1)
  {
  }

  /**
   * However long the page was away, restoring a running timer whose countdown expired
   * performs a single switch: the result is the first second of the next period.
   */
  lemma RestoreDoesNotFastForward(s: TimerState, rec: SavedState, now: int)
    requires rec.isRunning
    requires ElapsedSeconds(rec.lastTimestamp, now) >= rec.currentTime
    requires ElapsedSeconds(rec.lastTimestamp, now) > 0
    ensures Restored(s, Some(rec), now) == Switched(Adopted(rec).(currentTime := 0))
  {
  }

  /** A record that satisfies the invariant restores to a state that satisfies it. */
  lemma RestorePreservesInPeriod(s: TimerState, saved: Option<SavedState>, now: int)
    requires InPeriod(s)
    requires saved.Some? ==> InPeriod(Adopted(saved.value))
    ensures InPeriod(Restored(s, saved, now))
  {
  }
}
