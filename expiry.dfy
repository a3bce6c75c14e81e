/**
 * Actors that take themselves away when a timer of their own fires: the
 * score popup (CgScorePts) and the special target (CgSpecialTarget). On each
 * update message an enabled actor first stops itself if its timer has
 * fired; then the timer, bound to the actor, counts down.
 */
module Expiry {
  import opened Timer

  /** What the actor's stop does to its timer: the popup resets it, the special target stops it. */
  datatype OnStop = ResetTimer | StopTimer

  datatype Expiring = Expiring(enabled: bool, timer: TimerState)

  function Stopped(t: TimerState, how: OnStop): (r: TimerState)
    ensures !r.IsCounting()
  {
    match how
    case ResetTimer => t.Reset()
    case StopTimer => t.Stop()
  }

  /** One update message to an expiring actor. */
  function Frame(s: Expiring, interval: int, how: OnStop): (r: Expiring)
    ensures !s.enabled ==> r == s
    ensures s.enabled && s.timer.eventFired ==> !r.enabled && r.timer == Stopped(s.timer, how)
    ensures s.enabled && !s.timer.eventFired ==> r.enabled && r.timer == s.timer.Update(interval)
  {
    if !s.enabled then s
    else if s.timer.eventFired then Expiring(false, Stopped(s.timer, how).Update(interval))
    else Expiring(true, s.timer.Update(interval))
  }

  /** k update messages in a row. */
  function Frames(s: Expiring, interval: int, how: OnStop, k: nat): Expiring
    decreases k
  {
    if k == 0 then s else Frame(Frames(s, interval, how, k - 1), interval, how)
  }

  /**
   * A started actor whose timer has more than k intervals left is still
   * there after k updates, with k intervals taken off its timer.
   */
  lemma {:induction false} CountsDown(t: TimerState, interval: int, how: OnStop, k: nat)
    requires interval > 0 && t.IsCounting() && k * interval < t.currentTime
    ensures Frames(Expiring(true, t), interval, how, k) == Expiring(true, t.(currentTime := t.currentTime - k * interval))
    decreases k
  {
    if k > 0 {
      assert (k - 1) * interval == k * interval - interval;
      CountsDown(t, interval, how, k - 1);
    }
  }

  /**
   * A started actor whose timer runs out during the k-th update is still
   * there after it and gone after the next one: it shows for exactly k
   * updates, never longer.
   */
  lemma Disappears(t: TimerState, interval: int, how: OnStop, k: nat)
    requires interval > 0 && t.IsCounting() && k >= 1
    requires (k - 1) * interval < t.currentTime <= k * interval
    ensures Frames(Expiring(true, t), interval, how, k).enabled
    ensures !Frames(Expiring(true, t), interval, how, k + 1).enabled
  {
    assert (k - 1) * interval == k * interval - interval;
    CountsDown(t, interval, how, k - 1);
  }

  /** Once gone, the actor stays gone, whatever further updates come. */
  lemma {:induction false} GoneStaysGone(s: Expiring, interval: int, how: OnStop, k: nat)
    requires !s.enabled
    ensures Frames(s, interval, how, k) == s
    decreases k
  {
    if k > 0 {
      GoneStaysGone(s, interval, how, k - 1);
    }
  }
}
