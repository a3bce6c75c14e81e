/**
 * The special target, the fruit (CgSpecialTarget): it appears on a fixed
 * tile, marks that tile as Fruit in the maze grid for the player to eat,
 * and goes away, marking it Road again, when eaten or when its timer fires.
 */
module SpecialTarget {
  import opened Position
  import opened Timer
  import opened Scores
  import opened Grid
  import opened Expiry

  /** How long a special target stays, in ms. */
  const TARGET_TIME: int := 10000

  /** The tile the special target appears on. */
  const TARGET_HOME: Pos := Placed(13, 15, 4, 0)

  /** The start as written: the timer is started where its last stop left it. */
  function StartAsWritten(t: TimerState): (r: TimerState)
    ensures r.currentTime == t.currentTime && r.eventFired == t.eventFired && r.settingTime == t.settingTime
    ensures r.IsCounting() <==> !t.eventFired
  {
    t.Start()
  }

  /** The start as intended: the timer counts again from the full TARGET_TIME. */
  function StartCorrected(t: TimerState): (r: TimerState)
    ensures r.currentTime == t.settingTime && r.settingTime == t.settingTime
    ensures r.IsCounting() && !r.eventFired
  {
    t.Restart()
  }

  /**
   * As written, a special target that has been stopped once (eaten or timed
   * out) and is started again in the same life, without a reset in
   * between, is gone after at most two updates: its timer was left at zero,
   * or fired.
   */
  lemma SecondTargetVanishesAsWritten(t: TimerState, interval: int)
    requires interval > 0
    ensures !Frames(Expiring(true, StartAsWritten(t.Stop())), interval, StopTimer, 2).enabled
  {
    var s := StartAsWritten(t.Stop());
    assert s.currentTime == 0;
    if !s.eventFired {
      assert Frame(Expiring(true, s), interval, StopTimer).timer.eventFired;
    }
  }

  /**
   * With the corrected start, a special target started again after a stop
   * stays for as long as the first one did: every update while less than
   * TARGET_TIME has passed.
   */
  lemma SecondTargetStaysCorrected(t: TimerState, interval: int, k: nat)
    requires interval > 0 && t.settingTime == TARGET_TIME && k * interval < TARGET_TIME
    ensures Frames(Expiring(true, StartCorrected(t.Stop())), interval, StopTimer, k).enabled
  {
    CountsDown(StartCorrected(t.Stop()), interval, StopTimer, k);
  }

  /** After a reset the two starts agree: the first special target of a life is as the source shows it. */
  lemma StartsAgreeAfterReset(t: TimerState)
    ensures StartCorrected(t.Set(TARGET_TIME).Reset()) == StartAsWritten(t.Set(TARGET_TIME).Reset())
  {
  }

  class CgSpecialTarget {
    const grid: CgMazeGrid
    var enabled: bool
    var kind: SpecialTargetKind
    var position: Pos
    var timer: TimerState

    predicate Valid()
      reads this`position, grid
    {
      grid.Valid() && position.Valid()
    }

    function Life(): Expiring
      reads this`enabled, this`timer
    {
      Expiring(enabled, timer)
    }

    constructor(grid: CgMazeGrid)
      requires grid.Valid()
      ensures Valid() && this.grid == grid && !enabled && kind == SpecialTargetKind.None
      ensures position == Placed(0, 0, 0, 0) && timer == FreshTimer
    {
      this.grid := grid;
      enabled := false;
      kind := SpecialTargetKind.None;
      position := Placed(0, 0, 0, 0);
      timer := FreshTimer;
    }

    /** Disabled, on its tile, with a full timer that is not counting. */
    method Reset()
      requires grid.Valid()
      modifies this`enabled, this`position, this`timer
      ensures Valid() && !enabled && position == TARGET_HOME
      ensures timer == old(timer).Set(TARGET_TIME).Reset()
      ensures !timer.IsCounting() && timer.currentTime == TARGET_TIME && timer.settingTime == TARGET_TIME
    {
      enabled := false;
      position := Placed(0, 0, 0, 0);
      timer := timer.Set(TARGET_TIME);
      timer := timer.Reset();
      position := TARGET_HOME;
    }

    /** Appear as kind: its tile becomes Fruit and the timer runs. */
    method Start(kind: SpecialTargetKind)
      requires Valid()
      modifies this`enabled, this`kind, this`timer, grid.values
      ensures enabled && this.kind == kind && timer == StartCorrected(old(timer))
      ensures timer.IsCounting() && timer.currentTime == timer.settingTime
      ensures grid.GetTile(position.column, position.row) == Fruit
      ensures forall c, r :: 0 <= c < BG_WIDTH && 0 <= r < BG_HEIGHT && (c, r) != (position.column, position.row) ==>
                grid.values[c, r] == old(grid.values[c, r])
    {
      this.kind := kind;
      enabled := true;
      timer := timer.Restart();
      grid.SetTile(position.column, position.row, Fruit);
    }

    /** Go away once the timer has fired. */
    method Update()
      requires Valid()
      modifies this`enabled, this`timer, grid.values
      ensures Life() == if old(timer).eventFired then Expiring(false, old(timer).Stop()) else old(Life())
      ensures old(timer).eventFired ==> grid.GetTile(position.column, position.row) == Road
      ensures forall c, r :: 0 <= c < BG_WIDTH && 0 <= r < BG_HEIGHT && (c, r) != (position.column, position.row) ==>
                grid.values[c, r] == old(grid.values[c, r])
      ensures !old(timer).eventFired ==> unchanged(grid.values)
    {
      if timer.eventFired {
        Stop();
      }
    }

    /** Go away: its tile becomes Road and the timer stops. */
    method Stop()
      requires Valid()
      modifies this`enabled, this`timer, grid.values
      ensures !enabled && timer == old(timer).Stop()
      ensures grid.GetTile(position.column, position.row) == Road
      ensures forall c, r :: 0 <= c < BG_WIDTH && 0 <= r < BG_HEIGHT && (c, r) != (position.column, position.row) ==>
                grid.values[c, r] == old(grid.values[c, r])
    {
      enabled := false;
      timer := timer.Stop();
      grid.SetTile(position.column, position.row, Road);
    }

    /** One update message: an enabled special target updates, then its timer counts down. */
    method Frame(interval: int)
      requires Valid()
      modifies this`enabled, this`timer, grid.values
      ensures Life() == Expiry.Frame(old(Life()), interval, StopTimer)
      ensures old(enabled) && old(timer).eventFired ==> grid.GetTile(position.column, position.row) == Road
      ensures forall c, r :: 0 <= c < BG_WIDTH && 0 <= r < BG_HEIGHT && (c, r) != (position.column, position.row) ==>
                grid.values[c, r] == old(grid.values[c, r])
      ensures !(old(enabled) && old(timer).eventFired) ==> unchanged(grid.values)
    {
      if enabled {
        Update();
        timer := timer.Update(interval);
      }
    }
  }
}
