// A throttle/debounce gate for UI actions. Times are integer ticks; the
// default (never executed) time is tick 0. Runs of the action are
// recorded in a ghost log of the times they happened.
module Throttle {
  /** DateTime's default value: no execution yet. */
  const DefaultTime: int := 0

  class ThrottleManager {
    const timeSpan: int
    const isThrottling: bool
    var lastExecutionTime: int
    var timerEnabled: bool
    var timerInterval: int
    /** The call times at which the action ran. */
    ghost var runs: seq<int>

    constructor (timeSpan: int, isThrottling: bool)
      ensures this.timeSpan == timeSpan && this.isThrottling == isThrottling
      ensures lastExecutionTime == DefaultTime && !timerEnabled && runs == []
    {
      this.timeSpan := timeSpan;
      this.isThrottling := isThrottling;
      lastExecutionTime := DefaultTime;
      timerEnabled := false;
      timerInterval := 0;
      runs := [];
    }

    /** Whether a throttled call at time now is held back. */
    predicate Suppressed(now: int)
      reads this
    {
      isThrottling && lastExecutionTime != DefaultTime && now - lastExecutionTime < timeSpan
    }

    /** The timer firing: the window restarts from now, and no held-back
        call is run. */
    method TimerTick(now: int)
      modifies this`lastExecutionTime, this`timerEnabled
      ensures lastExecutionTime == now && !timerEnabled
    {
      lastExecutionTime := now;
      timerEnabled := false;
    }

    /** Runs the action unless a throttled call falls within timeSpan of
        the last execution; a held-back call arms the timer for the rest
        of the window instead. In debounce mode the timer is stopped and
        the action always runs. */
    method Execute(now: int)
      modifies this`lastExecutionTime, this`timerEnabled, this`timerInterval, this`runs
      ensures old(Suppressed(now)) ==>
        && runs == old(runs) && lastExecutionTime == old(lastExecutionTime)
        && timerEnabled && timerInterval == timeSpan - (now - old(lastExecutionTime)) && timerInterval > 0
      ensures !old(Suppressed(now)) ==>
        && runs == old(runs) + [now] && lastExecutionTime == now && timerInterval == old(timerInterval)
        && timerEnabled == (isThrottling && old(timerEnabled))
    {
      if isThrottling {
        if lastExecutionTime != DefaultTime && now - lastExecutionTime < timeSpan {
          timerInterval := timeSpan - (now - lastExecutionTime);
          timerEnabled := true;
          return;
        }
      } else {
        if timerEnabled {
          timerEnabled := false;
        }
      }
      runs := runs + [now];
      lastExecutionTime := now;
    }
  }

  /** A fresh throttle runs the first call, whatever its time. */
  method FirstCallRuns(timeSpan: int, now: int) returns (m: ThrottleManager)
    ensures m.isThrottling && m.runs == [now] && m.lastExecutionTime == now
  {
    m := new ThrottleManager(timeSpan, true);
    m.Execute(now);
  }

  /** Two throttled calls less than timeSpan apart run the action at most
      once, when the first call's time is not the default. */
  method BurstRunsAtMostOnce(m: ThrottleManager, t1: int, t2: int)
    requires m.isThrottling && t1 != DefaultTime && 0 <= t2 - t1 < m.timeSpan
    modifies m
    ensures |m.runs| <= |old(m.runs)| + 1
  {
    m.Execute(t1);
    m.Execute(t2);
  }

  /** Debounce mode never holds a call back. */
  method DebounceAlwaysRuns(m: ThrottleManager, now: int)
    requires !m.isThrottling
    modifies m
    ensures m.runs == old(m.runs) + [now] && !m.timerEnabled
  {
    m.Execute(now);
  }
}
