/**
 * The scene sequencer (CbScene): a current and a next sequence number and a
 * timer that delays the switch from one to the other. While the delay runs
 * the scene's handler is not called; on the first update after the timer
 * fires the next number becomes current and the handler runs on it.
 */
module Scene {
  import opened Wrappers
  import opened Timer

  /** A request made by a handler: goToNextSequence(number, after: time). */
  datatype Request = Request(number: int, time: int)

  /**
   * The outcome of one call to the scene's handler (handleSequence): whether
   * the scene stays enabled, and the request it made, if any.
   */
  datatype Step = Step(continues: bool, request: Option<Request>)

  datatype SceneState = SceneState(timer: TimerState, current: int, next: int, enabled: bool) {

    function ResetSequence(): (r: SceneState)
      ensures r.current == 0 && r.next == 0 && !r.enabled
      ensures !r.timer.enabled && r.timer == timer.Reset()
    {
      SceneState(timer.Reset(), 0, 0, false)
    }

    /** The scene handles its sequence again; where it stands is not touched. */
    function StartSequence(): (r: SceneState)
      ensures r.enabled
      ensures r.timer == timer && r.current == current && r.next == next
    {
      this.(enabled := true)
    }

    /** The scene stops handling its sequence; where it stands is not touched. */
    function StopSequence(): (r: SceneState)
      ensures !r.enabled
      ensures r.timer == timer && r.current == current && r.next == next
    {
      this.(enabled := false)
    }

    /**
     * Go to sequence number (-1: the one after the current) after time ms;
     * with no delay the switch is immediate.
     */
    function GoToNext(number: int, time: int): (r: SceneState)
      ensures r.next == (if number == -1 then current + 1 else number)
      ensures r.enabled == enabled
      ensures time > 0 ==> r.current == current && r.timer.IsCounting() && r.timer.currentTime == time
      ensures time <= 0 ==> r.current == r.next && !r.timer.enabled
    {
      var n := if number == -1 then current + 1 else number;
      if time > 0 then
        this.(next := n, timer := timer.Set(time).Start())
      else
        this.(next := n, timer := timer.Stop(), current := n)
    }

    /** Waiting: the delay timer is running and has not fired. */
    predicate Waiting() {
      timer.enabled && !timer.eventFired
    }

    /** The effect of one handler call on sequence number current. */
    function Apply(step: Step): SceneState {
      var s := match step.request
        case Some(q) => GoToNext(q.number, q.time)
        case None => this;
      s.(enabled := step.continues)
    }

    /** CbScene.update: commit a fired delay, then run the handler unless still waiting. */
    function Update(handler: int -> Step): (r: SceneState)
      ensures Waiting() ==> r == this
      ensures !timer.enabled ==> r == Apply(handler(current))
      ensures timer.enabled && timer.eventFired ==>
                r == this.(timer := timer.Reset(), current := next).Apply(handler(next))
    {
      if timer.enabled then
        if timer.eventFired then this.(timer := timer.Reset(), current := next).Apply(handler(next))
        else this
      else Apply(handler(current))
    }

    /**
     * One update message to the scene as a container: when it is enabled,
     * its own Update runs, then its delay timer (its first child) gets the
     * same interval.
     */
    function Frame(interval: int, handler: int -> Step): (r: SceneState)
      ensures !enabled ==> r == this
    {
      if !enabled then this
      else
        var u := Update(handler);
        u.(timer := u.timer.Update(interval))
    }
  }

  /** count frames of interval ms each. */
  function Frames(s: SceneState, interval: int, handler: int -> Step, count: nat): SceneState
    decreases count
  {
    if count == 0 then s else Frames(s.Frame(interval, handler), interval, handler, count - 1)
  }

  /** While the delay runs the handler is never consulted: any two handlers give the same frame. */
  lemma WaitingIgnoresHandler(s: SceneState, interval: int, h1: int -> Step, h2: int -> Step)
    requires s.Waiting()
    ensures s.Frame(interval, h1) == s.Frame(interval, h2)
    ensures s.Frame(interval, h1).current == s.current && s.Frame(interval, h1).next == s.next
  {
  }

  /**
   * During a delay of remaining time t, count frames of a positive interval
   * with count * interval < t leave the sequence numbers and the enabled flag
   * alone and only count the timer down.
   */
  lemma {:induction false} DelayHolds(s: SceneState, interval: int, handler: int -> Step, count: nat)
    requires s.enabled && s.Waiting() && interval > 0
    requires count * interval < s.timer.currentTime
    ensures Frames(s, interval, handler, count) ==
              s.(timer := s.timer.(currentTime := s.timer.currentTime - count * interval))
    decreases count
  {
    if count > 0 {
      var s1 := s.Frame(interval, handler);
      assert s1 == s.(timer := s.timer.(currentTime := s.timer.currentTime - interval));
      assert (count - 1) * interval < s1.timer.currentTime;
      DelayHolds(s1, interval, handler, count - 1);
    }
  }

  /**
   * The delay ends on time: once the frames cover the remaining time the
   * timer has fired with the numbers unchanged, and the following frame
   * makes next current and runs the handler on it.
   */
  lemma {:induction false} DelayEnds(s: SceneState, interval: int, handler: int -> Step, count: nat)
    requires s.enabled && s.Waiting() && interval > 0
    requires 0 < count && (count - 1) * interval < s.timer.currentTime <= count * interval
    ensures var w := Frames(s, interval, handler, count);
            w.timer.eventFired && w.timer.enabled && w.current == s.current && w.next == s.next && w.enabled
    ensures var w := Frames(s, interval, handler, count);
            Frames(s, interval, handler, count + 1) ==
              (var c := w.(timer := w.timer.Reset(), current := w.next).Apply(handler(w.next));
               c.(timer := c.timer.Update(interval)))
  {
    DelayHolds(s, interval, handler, count - 1);
    FramesSplit(s, interval, handler, count - 1);
    FramesSplit(s, interval, handler, count);
  }

  lemma {:induction false} FramesSplit(s: SceneState, interval: int, handler: int -> Step, count: nat)
    ensures Frames(s, interval, handler, count + 1) == Frames(s, interval, handler, count).Frame(interval, handler)
    decreases count
  {
    if count > 0 {
      FramesSplit(s.Frame(interval, handler), interval, handler, count - 1);
    }
  }

  /** The sequencer object, updated in place. */
  class CbScene {
    var timer: TimerState
    var current: int
    var next: int
    var enabled: bool

    function Value(): SceneState
      reads this
    {
      SceneState(timer, current, next, enabled)
    }

    /** CbScene.init: a fresh timer, then resetSequence. */
    constructor()
      ensures Value() == SceneState(FreshTimer, 0, 0, true).ResetSequence()
    {
      timer := FreshTimer.Reset();
      current := 0;
      next := 0;
      enabled := false;
    }

    method ResetSequence()
      modifies this
      ensures Value() == old(Value()).ResetSequence()
    {
      timer := timer.Reset();
      current := 0;
      next := 0;
      enabled := false;
    }

    method StartSequence()
      modifies this
      ensures Value() == old(Value()).StartSequence()
    {
      enabled := true;
    }

    method StopSequence()
      modifies this
      ensures Value() == old(Value()).StopSequence()
    {
      enabled := false;
    }

    method GoToNextSequence(number: int, time: int)
      modifies this
      ensures Value() == old(Value()).GoToNext(number, time)
    {
      next := if number == -1 then current + 1 else number;
      if time > 0 {
        timer := timer.Set(time).Start();
      } else {
        timer := timer.Stop();
        current := next;
      }
    }

    method Update(handler: int -> Step)
      modifies this
      ensures Value() == old(Value()).Update(handler)
    {
      if timer.enabled {
        if timer.eventFired {
          timer := timer.Reset();
          current := next;
        } else {
          return;
        }
      }
      var step := handler(current);
      if step.request.Some? {
        GoToNextSequence(step.request.value.number, step.request.value.time);
      }
      enabled := step.continues;
    }

    function GetSequence(): int
      reads this
    {
      current
    }

    function GetNextSequence(): int
      reads this
    {
      next
    }
  }
}
