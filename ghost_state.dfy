/**
 * A ghost's state (CgGhostState): the committed and the requested mode,
 * the frightened period with its blinking phase, and spurting. The state
 * owns two countdown timers, the frightened period and the blink cadence;
 * one update message runs the state's own handler first and then the two
 * timers, in that order.
 */
module GhostState {
  import opened Timer

  datatype GhostMode = Init | Standby | GoOut | Scatter | Chase | Escape | EscapeInNest

  /** Remaining frightened time at which blinking begins (ms). */
  const BLINK_START: int := 2000
  /** The first blink period, and the level at which the ghost turns white. */
  const BLINK_FIRST: int := 20 * 16
  /** The level at which the ghost turns blue again. */
  const BLINK_HALF: int := 10 * 16
  /** Every later blink period. */
  const BLINK_PERIOD: int := 21 * 16

  datatype GhostStateValue = GhostStateValue(
    current: GhostMode, next: GhostMode,
    frightened: bool, blinking: bool,
    timerFrightened: TimerState, timerBlinking: TimerState,
    blinkingOn: bool, spurt: bool, updateDrawing: bool)
  {
    function Reset(): (r: GhostStateValue)
      ensures r.current == Init && r.next == Init && !r.IsChanging()
      ensures !r.frightened && !r.blinking && !r.spurt && !r.IsFrightened() && !r.IsEscaping()
      ensures !r.timerFrightened.IsCounting() && !r.timerBlinking.IsCounting()
    {
      GhostStateValue(Init, Init, false, false, timerFrightened.Reset(), timerBlinking.Reset(), false, false, false)
    }

    /** Request a mode; it is committed by Update. */
    function Set(mode: GhostMode): (r: GhostStateValue)
      ensures r.next == mode && r.current == current
      ensures r.IsChanging() <==> current != mode
    {
      this.(next := mode)
    }

    /** Commit the requested mode. */
    function Update(): (r: GhostStateValue)
      ensures r.current == next && r.next == next && !r.IsChanging()
      ensures r.updateDrawing == (updateDrawing || IsChanging())
      ensures r.frightened == frightened && r.timerFrightened == timerFrightened
    {
      if current != next then this.(current := next, updateDrawing := true) else this
    }

    predicate IsChanging() {
      current != next
    }

    function SetSpurt(on: bool): (r: GhostStateValue)
      ensures r.spurt == on && r.current == current && r.next == next
      ensures r.updateDrawing == (updateDrawing || on != spurt)
    {
      if on != spurt then this.(spurt := on, updateDrawing := true) else this
    }

    /**
     * Start (counting time ms) or end the frightened period; either way the
     * blinking phase is over.
     */
    function SetFrightened(on: bool, time: int): (r: GhostStateValue)
      ensures r.frightened == on && !r.blinking && r.updateDrawing
      ensures on ==> r.timerFrightened.IsCounting() && r.timerFrightened.currentTime == time
      ensures !on ==> !r.timerFrightened.IsCounting() && !r.timerFrightened.eventFired
      ensures r.current == current && r.next == next && r.timerBlinking == timerBlinking
    {
      var s := this.(frightened := on, blinking := false, updateDrawing := true);
      if on then s.(timerFrightened := timerFrightened.Set(time).Start())
      else s.(timerFrightened := timerFrightened.Reset())
    }

    predicate IsFinishFrightened() {
      timerFrightened.eventFired
    }

    /** Drawn white: more than half of the blink period remains. */
    predicate IsBlinkingOn() {
      timerBlinking.currentTime > BLINK_HALF
    }

    /** Returning to the nest overrides being frightened. */
    predicate IsFrightened() {
      frightened && !IsEscaping()
    }

    predicate IsEscaping() {
      current == Escape || next == Escape || current == EscapeInNest || next == EscapeInNest
    }

    /**
     * The frightened handler: enter the blinking phase once at most 2000 ms
     * remain, flip the blink colour at the two levels of the blink timer,
     * re-arm the blink timer when it fires, and end the frightened period
     * once its timer has fired.
     */
    function UpdateFrightened(): (r: GhostStateValue)
      ensures timerFrightened.eventFired ==> !r.frightened && !r.blinking && !r.timerFrightened.IsCounting()
      ensures !timerFrightened.eventFired ==> r.frightened == frightened && r.timerFrightened == timerFrightened
      ensures !timerFrightened.eventFired && !blinking ==> (r.blinking <==> timerFrightened.currentTime <= BLINK_START)
      ensures !blinking && r.blinking ==> r.timerBlinking.IsCounting() && r.timerBlinking.currentTime == BLINK_FIRST
      ensures blinking && !timerFrightened.eventFired && timerBlinking.eventFired ==>
                r.timerBlinking.IsCounting() && r.timerBlinking.currentTime == BLINK_PERIOD
      ensures blinking && !timerBlinking.eventFired ==> r.timerBlinking == timerBlinking
      ensures r.current == current && r.next == next && r.spurt == spurt
    {
      var s :=
        if !blinking then
          if timerFrightened.currentTime <= BLINK_START then
            this.(timerBlinking := timerBlinking.Set(BLINK_FIRST).Start(), blinking := true)
          else this
        else
          var t :=
            if timerBlinking.currentTime == BLINK_FIRST then this.(blinkingOn := true, updateDrawing := true)
            else if timerBlinking.currentTime == BLINK_HALF then this.(blinkingOn := false, updateDrawing := true)
            else this;
          if t.timerBlinking.eventFired then t.(timerBlinking := t.timerBlinking.Set(BLINK_PERIOD).Start()) else t;
      if s.timerFrightened.eventFired then s.SetFrightened(false, 0) else s
    }

    /** One update message: the handler (only while frightened), then the two timers. */
    function Frame(interval: int): (r: GhostStateValue)
      ensures r.current == current && r.next == next && r.spurt == spurt
      ensures !frightened ==> !r.frightened && r.timerFrightened == timerFrightened.Update(interval)
      ensures frightened && timerFrightened.eventFired ==> !r.frightened
    {
      var s := if frightened then UpdateFrightened() else this;
      s.(timerFrightened := s.timerFrightened.Update(interval), timerBlinking := s.timerBlinking.Update(interval))
    }
  }

  /** The state as constructed. */
  const InitialGhostState: GhostStateValue :=
    GhostStateValue(Init, Init, false, false, FreshTimer, FreshTimer, false, false, false)

  /** The state after one update message per interval in the list. */
  function Frames(s: GhostStateValue, intervals: seq<int>): GhostStateValue
    decreases |intervals|
  {
    if |intervals| == 0 then s else Frames(s.Frame(intervals[0]), intervals[1..])
  }

  /**
   * While the frightened timer has not fired, the frightened period goes
   * on and its timer runs exactly as a bare countdown timer would.
   */
  lemma {:induction false} FrightenedLasts(s: GhostStateValue, intervals: seq<int>)
    requires s.frightened && s.timerFrightened.IsCounting()
    requires forall i :: 0 <= i < |intervals| ==> intervals[i] >= 0
    requires !Run(s.timerFrightened, intervals).eventFired
    ensures Frames(s, intervals).frightened
    ensures Frames(s, intervals).timerFrightened == Run(s.timerFrightened, intervals)
    decreases |intervals|
  {
    if |intervals| > 0 {
      var u := s.Frame(intervals[0]);
      var rest := intervals[1..];
      assert u.timerFrightened == s.timerFrightened.Update(intervals[0]);
      RunPrefixFired(s.timerFrightened.Update(intervals[0]), rest);
      assert forall i :: 0 <= i < |rest| ==> rest[i] >= 0 by {
        forall i | 0 <= i < |rest| ensures rest[i] >= 0 {
          assert rest[i] == intervals[i + 1];
        }
      }
      FrightenedLasts(u, rest);
    }
  }

  /** A fired timer stays fired for the rest of a run. */
  lemma {:induction false} RunPrefixFired(t: TimerState, intervals: seq<int>)
    ensures t.eventFired ==> Run(t, intervals).eventFired
    decreases |intervals|
  {
    if |intervals| > 0 && t.eventFired {
      RunPrefixFired(t.Update(intervals[0]), intervals[1..]);
    }
  }

  /**
   * A frightened period of time ms, started and then updated with
   * non-negative intervals: the ghost is still frightened while the
   * intervals add up to less than time, and no longer frightened one
   * update after they reach it.
   */
  lemma FrightenedPeriod(s: GhostStateValue, time: int, intervals: seq<int>, last: int)
    requires time > 0
    requires forall i :: 0 <= i < |intervals| ==> intervals[i] >= 0
    ensures Sum(intervals) < time ==> Frames(s.SetFrightened(true, time), intervals).frightened
    ensures |intervals| > 0 && Sum(intervals) >= time ==>
              !Frames(s.SetFrightened(true, time), intervals + [last]).frightened
  {
    var f := s.SetFrightened(true, time);
    RunFires(f.timerFrightened, intervals);
    if Sum(intervals) < time {
      FrightenedLasts(f, intervals);
    } else if |intervals| > 0 {
      FiredEndsFrightened(f, intervals, last);
    }
  }

  /**
   * Once the frightened timer has fired within a run, the ghost is no
   * longer frightened one update later.
   */
  lemma {:induction false} FiredEndsFrightened(s: GhostStateValue, intervals: seq<int>, last: int)
    requires s.frightened && s.timerFrightened.IsCounting()
    requires forall i :: 0 <= i < |intervals| ==> intervals[i] >= 0
    requires Run(s.timerFrightened, intervals).eventFired
    ensures !Frames(s, intervals + [last]).frightened
    decreases |intervals|
  {
    assert |intervals| > 0;
    var u := s.Frame(intervals[0]);
    var rest := intervals[1..];
    assert (intervals + [last])[1..] == rest + [last];
    assert u.timerFrightened == s.timerFrightened.Update(intervals[0]);
    assert forall i :: 0 <= i < |rest| ==> rest[i] >= 0 by {
      forall i | 0 <= i < |rest| ensures rest[i] >= 0 {
        assert rest[i] == intervals[i + 1];
      }
    }
    if u.timerFrightened.eventFired {
      FiredThenCleared(u, rest + [last]);
    } else {
      FiredEndsFrightened(u, rest, last);
    }
  }

  /** Not frightened stays not frightened: nothing in the handler or the timers turns it back on. */
  lemma {:induction false} StaysUnfrightened(s: GhostStateValue, intervals: seq<int>)
    requires !s.frightened
    ensures !Frames(s, intervals).frightened
    decreases |intervals|
  {
    if |intervals| > 0 {
      StaysUnfrightened(s.Frame(intervals[0]), intervals[1..]);
    }
  }

  /** A frightened state whose timer has fired is cleared by any non-empty run of updates. */
  lemma FiredThenCleared(s: GhostStateValue, intervals: seq<int>)
    requires s.frightened && s.timerFrightened.eventFired && |intervals| > 0
    ensures !Frames(s, intervals).frightened
  {
    StaysUnfrightened(s.Frame(intervals[0]), intervals[1..]);
  }

  /** The ghost's state object, updated in place. */
  class CgGhostState {
    var current: GhostMode
    var next: GhostMode
    var frightened: bool
    var blinking: bool
    var timerFrightened: TimerState
    var timerBlinking: TimerState
    var blinkingOn: bool
    var spurt: bool
    var updateDrawing: bool

    function Value(): GhostStateValue
      reads this
    {
      GhostStateValue(current, next, frightened, blinking, timerFrightened, timerBlinking, blinkingOn, spurt, updateDrawing)
    }

    constructor()
      ensures Value() == InitialGhostState
    {
      current := Init;
      next := Init;
      frightened := false;
      blinking := false;
      timerFrightened := FreshTimer;
      timerBlinking := FreshTimer;
      blinkingOn := false;
      spurt := false;
      updateDrawing := false;
    }

    method Reset()
      modifies this
      ensures Value() == old(Value()).Reset()
    {
      current := Init;
      next := Init;
      frightened := false;
      blinking := false;
      blinkingOn := false;
      spurt := false;
      timerFrightened := timerFrightened.Reset();
      timerBlinking := timerBlinking.Reset();
      updateDrawing := false;
    }

    function Get(): GhostMode
      reads this
    {
      current
    }

    function GetNext(): GhostMode
      reads this
    {
      next
    }

    method Set(mode: GhostMode)
      modifies this`next
      ensures Value() == old(Value()).Set(mode)
    {
      next := mode;
    }

    method Update()
      modifies this`current, this`updateDrawing
      ensures Value() == old(Value()).Update()
    {
      if current != next {
        current := next;
        updateDrawing := true;
      }
    }

    predicate IsChanging()
      reads this
    {
      current != next
    }

    method SetSpurt(on: bool)
      modifies this`spurt, this`updateDrawing
      ensures Value() == old(Value()).SetSpurt(on)
    {
      if on != spurt {
        spurt := on;
        updateDrawing := true;
      }
    }

    method SetFrightened(on: bool, time: int)
      modifies this`frightened, this`blinking, this`updateDrawing, this`timerFrightened
      ensures Value() == old(Value()).SetFrightened(on, time)
    {
      frightened := on;
      blinking := false;
      updateDrawing := true;
      if on {
        timerFrightened := timerFrightened.Set(time).Start();
      } else {
        timerFrightened := timerFrightened.Reset();
      }
    }

    predicate IsFrightened()
      reads this
    {
      Value().IsFrightened()
    }

    predicate IsEscaping()
      reads this
    {
      Value().IsEscaping()
    }

    predicate IsBlinkingOn()
      reads this
    {
      Value().IsBlinkingOn()
    }

    method ClearDrawingUpdate()
      modifies this`updateDrawing
      ensures !updateDrawing
    {
      updateDrawing := false;
    }

    method UpdateFrightened()
      modifies this
      ensures Value() == old(Value()).UpdateFrightened()
    {
      if !blinking {
        if timerFrightened.currentTime <= BLINK_START {
          timerBlinking := timerBlinking.Set(BLINK_FIRST).Start();
          blinking := true;
        }
      } else {
        if timerBlinking.currentTime == BLINK_FIRST {
          blinkingOn := true;
          updateDrawing := true;
        } else if timerBlinking.currentTime == BLINK_HALF {
          blinkingOn := false;
          updateDrawing := true;
        }
        if timerBlinking.eventFired {
          timerBlinking := timerBlinking.Set(BLINK_PERIOD).Start();
        }
      }
      if timerFrightened.eventFired {
        SetFrightened(false, 0);
      }
    }

    /** One update message delivered to the state and then to its timers. */
    method Frame(interval: int)
      modifies this
      ensures Value() == old(Value()).Frame(interval)
    {
      if frightened {
        UpdateFrightened();
      }
      timerFrightened := timerFrightened.Update(interval);
      timerBlinking := timerBlinking.Update(interval);
    }
  }
}
