/**
 * The countdown timer (CbTimer). It counts down by the update interval while
 * it is enabled and has not fired; reaching zero fires it, and a fired timer
 * stays fired until it is reset.
 */
module Timer {

  datatype TimerState = TimerState(currentTime: int, settingTime: int, eventFired: bool, enabled: bool) {

    /** Back to the full interval, unfired and disabled. */
    function Reset(): (r: TimerState)
      ensures r.currentTime == settingTime && r.settingTime == settingTime
      ensures !r.eventFired && !r.IsCounting()
    {
      TimerState(settingTime, settingTime, false, false)
    }

    /** A new interval, then Reset. */
    function Set(interval: int): (r: TimerState)
      ensures r.currentTime == interval && r.settingTime == interval
      ensures !r.eventFired && !r.IsCounting()
    {
      this.(settingTime := interval).Reset()
    }

    function Start(): (r: TimerState)
      ensures r.IsCounting() <==> !eventFired
      ensures r.currentTime == currentTime && r.eventFired == eventFired
    {
      this.(enabled := true)
    }

    /** Reset then Start: counting again from the full interval. */
    function Restart(): (r: TimerState)
      ensures r.IsCounting() && r.currentTime == settingTime && r.settingTime == settingTime
    {
      Reset().Start()
    }

    /** Stop counting, keeping the remaining time. */
    function Pause(): (r: TimerState)
      ensures !r.IsCounting()
      ensures r.currentTime == currentTime && r.eventFired == eventFired
    {
      this.(enabled := false)
    }

    /** Stop counting and clear the remaining time, without firing. */
    function Stop(): (r: TimerState)
      ensures !r.IsCounting() && r.currentTime == 0
      ensures r.eventFired == eventFired && r.settingTime == settingTime
    {
      this.(enabled := false, currentTime := 0)
    }

    predicate IsCounting() {
      enabled && !eventFired
    }

    /** One update message: count down by interval, firing at or below zero. */
    function Update(interval: int): (r: TimerState)
      ensures !IsCounting() ==> r == this
      ensures r.enabled == enabled && r.settingTime == settingTime
      ensures IsCounting() ==> (r.eventFired <==> currentTime <= interval)
      ensures r.eventFired && !eventFired ==> r.currentTime == 0
      ensures !r.eventFired ==> r.currentTime == currentTime - (if IsCounting() then interval else 0)
    {
      if !IsCounting() then this
      else if currentTime - interval <= 0 then this.(currentTime := 0, eventFired := true)
      else this.(currentTime := currentTime - interval)
    }
  }

  /** A timer as constructed: enabled, unfired, with no time set. */
  const FreshTimer: TimerState := TimerState(0, 0, false, true)

  /** Pausing then starting resumes the countdown exactly where it was. */
  lemma PauseThenStartResumes(t: TimerState)
    ensures t.Pause().Start() == t.Start()
  {
  }

  /** The timer after one update message per interval in the list. */
  function Run(t: TimerState, intervals: seq<int>): TimerState
    decreases |intervals|
  {
    if |intervals| == 0 then t else Run(t.Update(intervals[0]), intervals[1..])
  }

  function Sum(xs: seq<int>): int
    decreases |xs|
  {
    if |xs| == 0 then 0 else xs[0] + Sum(xs[1..])
  }

  /** A timer that is not counting ignores every update. */
  lemma {:induction false} RunIdle(t: TimerState, intervals: seq<int>)
    requires !t.IsCounting()
    ensures Run(t, intervals) == t
    decreases |intervals|
  {
    if |intervals| > 0 {
      RunIdle(t.Update(intervals[0]), intervals[1..]);
    }
  }

  /**
   * A counting timer fires within a run of non-negative intervals exactly
   * when the run is non-empty and the intervals add up to the remaining
   * time; until then the remaining time drops by their sum.
   */
  lemma {:induction false} RunFires(t: TimerState, intervals: seq<int>)
    requires t.IsCounting()
    requires forall i :: 0 <= i < |intervals| ==> intervals[i] >= 0
    ensures Run(t, intervals).eventFired <==> |intervals| > 0 && Sum(intervals) >= t.currentTime
    ensures !Run(t, intervals).eventFired ==> Run(t, intervals).currentTime == t.currentTime - Sum(intervals)
    ensures Run(t, intervals).eventFired ==> Run(t, intervals).currentTime == 0
    ensures Run(t, intervals).settingTime == t.settingTime && Run(t, intervals).enabled
    decreases |intervals|
  {
    if |intervals| > 0 {
      var u := t.Update(intervals[0]);
      var rest := intervals[1..];
      assert forall i :: 0 <= i < |rest| ==> rest[i] >= 0 by {
        forall i | 0 <= i < |rest| ensures rest[i] >= 0 {
          assert rest[i] == intervals[i + 1];
        }
      }
      SumNonNegative(rest);
      if u.eventFired {
        RunIdle(u, rest);
      } else {
        RunFires(u, rest);
      }
    }
  }

  lemma {:induction false} SumNonNegative(xs: seq<int>)
    requires forall i :: 0 <= i < |xs| ==> xs[i] >= 0
    ensures Sum(xs) >= 0
    decreases |xs|
  {
    if |xs| > 0 {
      assert forall i :: 0 <= i < |xs[1..]| ==> xs[1..][i] >= 0 by {
        forall i | 0 <= i < |xs[1..]| ensures xs[1..][i] >= 0 {
          assert xs[1..][i] == xs[i + 1];
        }
      }
      SumNonNegative(xs[1..]);
    }
  }

  /** The countdown timer object, updated in place. */
  class CbTimer {
    var currentTime: int
    var settingTime: int
    var eventFired: bool
    var enabled: bool

    function Value(): TimerState
      reads this
    {
      TimerState(currentTime, settingTime, eventFired, enabled)
    }

    constructor()
      ensures Value() == FreshTimer
    {
      currentTime := 0;
      settingTime := 0;
      eventFired := false;
      enabled := true;
    }

    method Reset()
      modifies this
      ensures Value() == old(Value()).Reset()
    {
      currentTime := settingTime;
      eventFired := false;
      enabled := false;
    }

    method Set(interval: int)
      modifies this
      ensures Value() == old(Value()).Set(interval)
    {
      settingTime := interval;
      Reset();
    }

    method Start()
      modifies this
      ensures Value() == old(Value()).Start()
    {
      enabled := true;
    }

    method Restart()
      modifies this
      ensures Value() == old(Value()).Restart()
    {
      Reset();
      Start();
    }

    method Pause()
      modifies this
      ensures Value() == old(Value()).Pause()
    {
      enabled := false;
    }

    method Stop()
      modifies this
      ensures Value() == old(Value()).Stop()
    {
      enabled := false;
      currentTime := 0;
    }

    function Get(): int
      reads this
    {
      currentTime
    }

    predicate IsCounting()
      reads this
    {
      enabled && !eventFired
    }

    predicate IsEventFired()
      reads this
    {
      eventFired
    }

    method Update(interval: int)
      modifies this
      ensures Value() == old(Value()).Update(interval)
    {
      if !IsCounting() {
        return;
      }
      currentTime := currentTime - interval;
      if currentTime <= 0 {
        currentTime := 0;
        eventFired := true;
      }
    }
  }
}
