/**
 * The score popups: a popup (CgScorePts) shows a score at a position until
 * its timer fires, and the manager (CgScorePtsManager) keeps a pool of five
 * of them, a list of free ones and a list of those showing.
 */
module Popups {
  import opened Position
  import opened Timer
  import opened Scores
  import opened Expiry

  /** The number of popups in the pool. */
  const POOL_SIZE: int := 5

  class CgScorePts {
    var enabled: bool
    var kind: ScorePts
    var position: Pos
    var timer: TimerState

    /** What the expiry of this popup depends on. */
    function Life(): Expiring
      reads this`enabled, this`timer
    {
      Expiring(enabled, timer)
    }

    constructor()
      ensures !enabled && kind == Pts0 && position == Placed(0, 0, 0, 0) && timer == FreshTimer
    {
      enabled := false;
      kind := Pts0;
      position := Placed(0, 0, 0, 0);
      timer := FreshTimer;
    }

    method Reset()
      modifies this`enabled, this`position
      ensures !enabled && position == Placed(0, 0, 0, 0)
    {
      enabled := false;
      position := Placed(0, 0, 0, 0);
    }

    /** Show the popup at pos for time ms. */
    method StartAt(kind: ScorePts, pos: Pos, time: int)
      modifies this`enabled, this`kind, this`position, this`timer
      ensures enabled && this.kind == kind
      ensures position == Placed(pos.column, pos.row, pos.dx, pos.dy)
      ensures timer == old(timer).Set(time).Start()
      ensures timer.IsCounting() && timer.currentTime == time
    {
      this.kind := kind;
      timer := timer.Set(time);
      position := Placed(pos.column, pos.row, pos.dx, pos.dy);
      Start();
    }

    method Start()
      modifies this`enabled, this`timer
      ensures enabled && timer == old(timer).Start()
    {
      enabled := true;
      timer := timer.Start();
    }

    /** Take the popup away, once its timer has fired. */
    method Update()
      modifies this`enabled, this`timer
      ensures Life() == if old(timer).eventFired then Expiring(false, old(timer).Reset()) else old(Life())
    {
      if timer.eventFired {
        Stop();
      }
    }

    method Stop()
      modifies this`enabled, this`timer
      ensures !enabled && timer == old(timer).Reset()
    {
      enabled := false;
      timer := timer.Reset();
    }

    /** One update message: an enabled popup updates, then its timer counts down. */
    method Frame(interval: int)
      modifies this`enabled, this`timer
      ensures Life() == Expiry.Frame(old(Life()), interval, ResetTimer)
    {
      if enabled {
        Update();
        timer := timer.Update(interval);
      }
    }
  }

  /**
   * The manager's update as written: for each popup that was showing at the
   * start, in order, if it is no longer enabled it is appended to the free
   * list and the FIRST popup of the showing list is removed, whichever popup
   * that is. expired[i] tells whether examined[i] is no longer enabled.
   */
  function Sweep<T>(free: seq<T>, showing: seq<T>, examined: seq<T>, expired: seq<bool>): (r: (seq<T>, seq<T>))
    requires |expired| == |examined| <= |showing|
    ensures |r.0| + |r.1| == |free| + |showing|
    decreases |examined|
  {
    if examined == [] then (free, showing)
    else if expired[0] then Sweep(free + [examined[0]], showing[1..], examined[1..], expired[1..])
    else Sweep(free, showing, examined[1..], expired[1..])
  }

  /** The number of leading trues. */
  function LeadingTrue(b: seq<bool>): (r: nat)
    ensures r <= |b|
    ensures forall i :: 0 <= i < r ==> b[i]
    ensures r < |b| ==> !b[r]
  {
    if b == [] || !b[0] then 0 else 1 + LeadingTrue(b[1..])
  }

  /** Popups stay in the order they were started in unless some expire earlier. */
  predicate ExpiredFirst(expired: seq<bool>) {
    forall i, j :: 0 <= i < j < |expired| && expired[j] ==> expired[i]
  }

  /**
   * When the expired popups are exactly the oldest ones (popups expire in
   * the order they were started), the update moves exactly them, in order,
   * from the showing list to the free list.
   */
  lemma {:induction false} SweepOldestFirst<T>(free: seq<T>, showing: seq<T>, expired: seq<bool>)
    requires |expired| == |showing| && ExpiredFirst(expired)
    ensures var n := LeadingTrue(expired);
      Sweep(free, showing, showing, expired) == (free + showing[..n], showing[n..])
    decreases |showing|
  {
    if showing == [] {
      assert free + showing[..0] == free;
    } else if expired[0] {
      assert ExpiredFirst(expired[1..]);
      SweepOldestFirst(free + [showing[0]], showing[1..], expired[1..]);
      assert free + [showing[0]] + showing[1..][..LeadingTrue(expired[1..])] == free + showing[..LeadingTrue(expired)];
    } else {
      assert forall i :: 0 <= i < |expired| ==> !expired[i];
      NoneExpired(free, showing, showing, expired);
      assert free + showing[..0] == free;
    }
  }

  /** When nothing examined has expired, nothing moves. */
  lemma {:induction false} NoneExpired<T>(free: seq<T>, showing: seq<T>, examined: seq<T>, expired: seq<bool>)
    requires |expired| == |examined| <= |showing|
    requires forall i :: 0 <= i < |expired| ==> !expired[i]
    ensures Sweep(free, showing, examined, expired) == (free, showing)
    decreases |examined|
  {
    if examined != [] {
      NoneExpired(free, showing, examined[1..], expired[1..]);
    }
  }

  /**
   * When a popup expires while an older one is still showing, the update as
   * written loses the older popup from both lists and lists the expired one
   * as both free and showing.
   */
  lemma SweepOutOfOrder()
    ensures Sweep([], [1, 2], [1, 2], [false, true]) == ([2], [2])
  {
    var showing, expired := [1, 2], [false, true];
    assert showing[1..] == [2] && expired[1..] == [true];
    assert Sweep([], showing, showing, expired) == Sweep([], showing, [2], [true]);
    var e: seq<int>, none: seq<bool> := [], [];
    assert [2][1..] == e && [true][1..] == none && e + [2] == [2];
    assert Sweep(e, showing, [2], [true]) == Sweep([2], [2], e, none);
  }

  /** Whether each popup in s is no longer enabled. */
  function Expired(s: seq<CgScorePts>): (r: seq<bool>)
    reads s
    ensures |r| == |s|
    ensures forall i :: 0 <= i < |s| ==> r[i] == !s[i].enabled
  {
    if s == [] then [] else [!s[0].enabled] + Expired(s[1..])
  }

  class CgScorePtsManager {
    var actors: seq<CgScorePts>
    var doings: seq<CgScorePts>
    var enabled: bool

    /** The pool always holds five popups, free or showing. */
    predicate Valid()
      reads this
    {
      |actors| + |doings| == POOL_SIZE
    }

    constructor()
      ensures Valid() && |actors| == POOL_SIZE && doings == [] && enabled
      ensures forall p :: p in actors ==> fresh(p) && !p.enabled
    {
      var pool: seq<CgScorePts> := [];
      for i := 0 to POOL_SIZE
        invariant |pool| == i
        invariant forall p :: p in pool ==> fresh(p) && !p.enabled
      {
        var p := new CgScorePts();
        pool := pool + [p];
      }
      actors := pool;
      doings := [];
      enabled := true;
    }

    /** Reset every free popup; the manager stops updating. */
    method Reset()
      modifies actors, this`enabled
      ensures !enabled
      ensures forall p :: p in actors ==> !p.enabled && p.position == Placed(0, 0, 0, 0)
    {
      for i := 0 to |actors|
        invariant forall j :: 0 <= j < i ==> !actors[j].enabled && actors[j].position == Placed(0, 0, 0, 0)
      {
        actors[i].Reset();
      }
      enabled := false;
    }

    /**
     * Show kind at pos for time ms: on the first free popup, or, when none
     * is free, on the oldest one showing, stopped first. Either way it
     * becomes the newest one showing.
     */
    method Start(kind: ScorePts, pos: Pos, time: int)
      requires Valid()
      modifies this`actors, this`doings, this`enabled, actors, doings
      ensures Valid() && enabled
      ensures old(actors) != [] ==> actors == old(actors)[1..] && doings == old(doings) + [old(actors)[0]]
      ensures old(actors) == [] ==> actors == [] && doings == old(doings)[1..] + [old(doings)[0]]
      ensures var p := doings[|doings| - 1];
        && p.enabled && p.kind == kind && p.position == Placed(pos.column, pos.row, pos.dx, pos.dy)
        && p.timer.IsCounting() && p.timer.currentTime == time
      ensures forall q :: q in old(actors) + old(doings) && q != doings[|doings| - 1] ==> unchanged(q)
    {
      var actor: CgScorePts;
      if |actors| == 0 {
        actor := doings[0];
        doings := doings[1..];
        actor.Stop();
      } else {
        actor := actors[0];
        actors := actors[1..];
      }
      actor.StartAt(kind, pos, time);
      doings := doings + [actor];
      enabled := true;
    }

    /** Move the popups that have gone from the showing list to the free list, as written. */
    method Update()
      requires Valid()
      modifies this`actors, this`doings, this`enabled
      ensures Valid()
      ensures (actors, doings) == old(Sweep(actors, doings, doings, Expired(doings)))
      ensures enabled == (old(enabled) && doings != [])
    {
      var examined := doings;
      ghost var expired := Expired(examined);
      for i := 0 to |examined|
        invariant |actors| + |doings| == POOL_SIZE && |doings| >= |examined| - i && enabled == old(enabled)
        invariant Sweep(actors, doings, examined[i..], expired[i..]) == old(Sweep(actors, doings, doings, Expired(doings)))
      {
        if !examined[i].enabled {
          actors := actors + [examined[i]];
          doings := doings[1..];
        }
        assert examined[i..][1..] == examined[i + 1..];
      }
      if |doings| == 0 {
        enabled := false;
      }
    }

    /** Take every showing popup away and free it; the manager stops updating. */
    method Stop()
      requires Valid()
      modifies this`actors, this`doings, this`enabled, doings
      ensures Valid() && !enabled && doings == [] && actors == old(actors) + old(doings)
      ensures forall p :: p in old(doings) ==> !p.enabled && p.timer == old(p.timer).Reset()
    {
      var examined := doings;
      for i := 0 to |examined|
        invariant doings == examined[i..] && actors == old(actors) + examined[..i]
        invariant forall p :: p in examined[..i] ==> !p.enabled && p.timer == old(p.timer).Reset()
        invariant forall p :: p in examined && p !in examined[..i] ==> p.timer == old(p.timer)
      {
        var each := examined[i];
        each.Stop();
        actors := actors + [each];
        doings := doings[1..];
        assert examined[..i + 1] == examined[..i] + [each];
      }
      enabled := false;
    }

    /** One update message. */
    method Frame()
      requires Valid()
      modifies this`actors, this`doings, this`enabled
      ensures Valid()
      ensures old(enabled) ==> (actors, doings) == old(Sweep(actors, doings, doings, Expired(doings)))
      ensures old(enabled) ==> enabled == (doings != [])
      ensures !old(enabled) ==> actors == old(actors) && doings == old(doings) && !enabled
    {
      if enabled {
        Update();
      }
    }
  }
}
