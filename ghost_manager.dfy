/**
 * The ghost manager (CgGhostManager): the four ghosts in the order they
 * were appended, the requests the scene makes of all of them at once,
 * and collision detection against the player.
 */
module GhostManager {
  import opened Position
  import opened GhostState
  import opened Ghost
  import opened Steering
  import opened Direction

  datatype CollisionResult = NoCollision | PlayerEatsGhost | PlayerMiss

  /** A ghost touches the player when both pixel offsets are within 4 dots. */
  predicate Touches(g: Pos, player: Pos) {
    Abs(g.X() - player.X()) <= 4 && Abs(g.Y() - player.Y()) <= 4
  }

  /** The index of the first position touching the player, or -1 when none does. */
  function FirstTouch(ps: seq<Pos>, player: Pos): (r: int)
    ensures -1 <= r < |ps|
    decreases |ps|
  {
    if |ps| == 0 then -1
    else if Touches(ps[0], player) then 0
    else
      var k := FirstTouch(ps[1..], player);
      if k == -1 then -1 else k + 1
  }

  /** FirstTouch finds a touching position exactly when there is one, and no earlier one touches. */
  lemma {:induction false} FirstTouchIsFirst(ps: seq<Pos>, player: Pos)
    ensures var r := FirstTouch(ps, player);
      && (r == -1 <==> forall i :: 0 <= i < |ps| ==> !Touches(ps[i], player))
      && (r >= 0 ==> Touches(ps[r], player) && forall i :: 0 <= i < r ==> !Touches(ps[i], player))
    decreases |ps|
  {
    if |ps| > 0 && !Touches(ps[0], player) {
      FirstTouchIsFirst(ps[1..], player);
      assert forall i :: 1 <= i < |ps| ==> ps[i] == ps[1..][i - 1];
    }
  }

  /**
   * Whether the release loop of setStateToGoOut reaches index i: it stops
   * after releasing a ghost when only one is forced out, and after
   * counting n ghosts.
   */
  function Examined(modes: seq<GhostMode>, n: int, forced: bool, i: nat): bool
    requires i <= |modes|
    decreases i
  {
    i == 0 || (Examined(modes, n, forced, i - 1) && !(forced && modes[i - 1] == Standby) && n != i)
  }

  /** The ghost at index i is asked to go out. */
  predicate Released(modes: seq<GhostMode>, n: int, forced: bool, i: nat)
    requires i < |modes|
  {
    Examined(modes, n, forced, i) && modes[i] == Standby
  }

  /**
   * The loop reaches index i exactly when i is below the count asked for
   * (any index when the count is zero or negative) and, when one ghost is
   * forced out, no earlier ghost was waiting.
   */
  lemma {:induction false} ExaminedIff(modes: seq<GhostMode>, n: int, forced: bool, i: nat)
    requires i <= |modes|
    ensures Examined(modes, n, forced, i) <==>
              (n <= 0 || i < n) && (!forced || forall j :: 0 <= j < i ==> modes[j] != Standby)
    decreases i
  {
    if i > 0 {
      ExaminedIff(modes, n, forced, i - 1);
    }
  }

  /**
   * Which waiting ghosts go out: with one forced, only the first waiting
   * ghost (within the count); otherwise every waiting ghost within the
   * count; a count of zero or less counts every ghost.
   */
  lemma ReleasedCharacterised(modes: seq<GhostMode>, n: int, forced: bool, i: nat)
    requires i < |modes|
    ensures !forced ==> (Released(modes, n, forced, i) <==> modes[i] == Standby && (n <= 0 || i < n))
    ensures forced ==> (Released(modes, n, forced, i) <==>
                          modes[i] == Standby && (n <= 0 || i < n) && forall j :: 0 <= j < i ==> modes[j] != Standby)
  {
    ExaminedIff(modes, n, forced, i);
  }

  /** With one ghost forced out, at most one goes out. */
  lemma ForcedReleasesOne(modes: seq<GhostMode>, n: int, i: nat, j: nat)
    requires i < |modes| && j < |modes|
    requires Released(modes, n, true, i) && Released(modes, n, true, j)
    ensures i == j
  {
    ReleasedCharacterised(modes, n, true, i);
    ReleasedCharacterised(modes, n, true, j);
  }

  function ModesOf(gs: seq<CgGhost>): (r: seq<GhostMode>)
    reads gs`state
    ensures |r| == |gs| && forall i :: 0 <= i < |gs| ==> r[i] == gs[i].state.current
  {
    if gs == [] then [] else [gs[0].state.current] + ModesOf(gs[1..])
  }

  function PositionsOf(gs: seq<CgGhost>): (r: seq<Pos>)
    reads gs`position
    ensures |r| == |gs| && forall i :: 0 <= i < |gs| ==> r[i] == gs[i].position
  {
    if gs == [] then [] else [gs[0].position] + PositionsOf(gs[1..])
  }

  class CgGhostManager {
    var ghosts: seq<CgGhost>
    /** Where the last ghost the player ate was caught (a copy of its position). */
    var collisionPosition: Pos

    /** The ghosts are distinct and each is valid. */
    predicate Valid()
      reads this`ghosts, ghosts`position, set g | g in ghosts :: g.grid
    {
      (forall i, j :: 0 <= i < |ghosts| && 0 <= j < |ghosts| && i != j ==> ghosts[i] != ghosts[j])
      && forall g :: g in ghosts ==> g.Valid()
    }

    constructor()
      ensures Valid() && ghosts == [] && collisionPosition == Placed(0, 0, 0, 0)
    {
      ghosts := [];
      collisionPosition := Placed(0, 0, 0, 0);
    }

    method Append(g: CgGhost)
      requires Valid() && g.Valid() && g !in ghosts
      modifies this`ghosts
      ensures Valid() && ghosts == old(ghosts) + [g]
    {
      ghosts := ghosts + [g];
    }

    /** Every ghost back to its start of round. */
    method Reset()
      requires Valid()
      modifies ghosts
      ensures Valid()
      ensures forall i :: 0 <= i < |ghosts| ==>
                var g := ghosts[i];
                && !g.enabled && g.position == HomePosition(g.kind).(amountMoved := 1)
                && g.heading == Heading(HomeHeading(g.kind), HomeHeading(g.kind))
                && g.state == old(g.state).Reset().Set(HomeMode(g.kind))
                && g.restriction == Unrestricted && g.target == old(g.target)
                && g.chaseMode == (g.kind != Clyde && old(g.chaseMode))
    {
      for i := 0 to |ghosts|
        invariant Valid()
        invariant forall j :: 0 <= j < i ==>
                    var g := ghosts[j];
                    && !g.enabled && g.position == HomePosition(g.kind).(amountMoved := 1)
                    && g.heading == Heading(HomeHeading(g.kind), HomeHeading(g.kind))
                    && g.state == old(g.state).Reset().Set(HomeMode(g.kind))
                    && g.restriction == Unrestricted && g.target == old(g.target)
                    && g.chaseMode == (g.kind != Clyde && old(g.chaseMode))
        invariant forall j :: i <= j < |ghosts| ==>
                    ghosts[j].state == old(ghosts[j].state) && ghosts[j].target == old(ghosts[j].target)
                    && ghosts[j].chaseMode == old(ghosts[j].chaseMode)
      {
        ghosts[i].Reset();
      }
    }

    /** Enable every ghost. */
    method Start()
      requires Valid()
      modifies ghosts`enabled
      ensures Valid() && forall g :: g in ghosts ==> g.enabled
    {
      for i := 0 to |ghosts|
        invariant Valid() && forall j :: 0 <= j < i ==> ghosts[j].enabled
      {
        ghosts[i].Start();
      }
    }

    /** Disable every ghost. */
    method Stop()
      requires Valid()
      modifies ghosts`enabled
      ensures Valid() && forall g :: g in ghosts ==> !g.enabled
    {
      for i := 0 to |ghosts|
        invariant Valid() && forall j :: 0 <= j < i ==> !ghosts[j].enabled
      {
        ghosts[i].Stop();
      }
    }

    /** A power feed: every ghost not returning to the nest is frightened for time. */
    method SetStateToFrightened(time: int)
      requires Valid()
      modifies ghosts`state, ghosts`position, ghosts`heading
      ensures Valid()
      ensures forall i :: 0 <= i < |ghosts| ==>
                ghosts[i].state == (if old(ghosts[i].state).IsEscaping() then old(ghosts[i].state)
                                    else old(ghosts[i].state).SetFrightened(true, time))
      ensures forall i :: 0 <= i < |ghosts| ==>
                (ghosts[i].position, ghosts[i].heading) ==
                  (if old(ghosts[i].state).IsEscaping() then (old(ghosts[i].position), old(ghosts[i].heading))
                   else Redirect(old(ghosts[i].position), old(ghosts[i].heading), Reverse(old(ghosts[i].heading).current)))
    {
      for i := 0 to |ghosts|
        invariant Valid()
        invariant forall j :: 0 <= j < i ==>
                    ghosts[j].state == (if old(ghosts[j].state).IsEscaping() then old(ghosts[j].state)
                                        else old(ghosts[j].state).SetFrightened(true, time))
        invariant forall j :: 0 <= j < i ==>
                    (ghosts[j].position, ghosts[j].heading) ==
                      (if old(ghosts[j].state).IsEscaping() then (old(ghosts[j].position), old(ghosts[j].heading))
                       else Redirect(old(ghosts[j].position), old(ghosts[j].heading), Reverse(old(ghosts[j].heading).current)))
        invariant forall j :: i <= j < |ghosts| ==>
                    ghosts[j].state == old(ghosts[j].state) && ghosts[j].position == old(ghosts[j].position)
                    && ghosts[j].heading == old(ghosts[j].heading)
      {
        ghosts[i].SetStateToFrightened(time);
      }
    }

    /** The i-th ghost, waiting in the nest, is asked to go out; no other ghost changes. */
    method ReleaseOne(i: int)
      requires Valid() && 0 <= i < |ghosts| && ghosts[i].state.current == Standby
      modifies ghosts`state
      ensures Valid()
      ensures var before: GhostStateValue := old(ghosts[i].state); ghosts[i].state == before.Set(GoOut)
      ensures forall j :: 0 <= j < |ghosts| && j != i ==> ghosts[j].state == old(ghosts[j].state)
    {
      var g := ghosts[i];
      assert forall j :: 0 <= j < |ghosts| && j != i ==> ghosts[j] != g;
      g.SetStateToGoOut();
    }

    /**
     * Let waiting ghosts out of the nest, in order: n of them counted from
     * the first (all when n is not positive), or only the first waiting
     * one when forced.
     */
    method SetStateToGoOut(n: int, forced: bool)
      requires Valid()
      modifies ghosts`state
      ensures Valid()
      ensures forall i :: 0 <= i < |ghosts| ==>
                ghosts[i].state == (if Released(old(ModesOf(ghosts)), n, forced, i) then old(ghosts[i].state).Set(GoOut)
                                    else old(ghosts[i].state))
    {
      ghost var modes := ModesOf(ghosts);
      var count := 0;
      var i := 0;
      var stopped := false;
      while i < |ghosts| && !stopped
        invariant Valid() && 0 <= i <= |ghosts| && count == i
        invariant !stopped ==> Examined(modes, n, forced, i)
        invariant stopped ==> !Examined(modes, n, forced, i)
        invariant forall j :: 0 <= j < |ghosts| ==>
                    ghosts[j].state == (if j < i && Released(modes, n, forced, j) then old(ghosts[j].state).Set(GoOut)
                                        else old(ghosts[j].state))
        decreases |ghosts| - i
      {
        assert Released(modes, n, forced, i) <==> ghosts[i].state.current == Standby;
        if ghosts[i].state.current == Standby {
          ReleaseOne(i);
          stopped := forced;
        }
        count := count + 1;
        i := i + 1;
        if n == count {
          stopped := true;
        }
      }
      if stopped {
        NotExaminedAfter(modes, n, forced, i);
      }
    }

    /** Some ghost is frightened (and not returning to the nest). */
    method IsFrightenedState() returns (frightened: bool)
      requires Valid()
      ensures frightened <==> exists g :: g in ghosts && g.state.IsFrightened()
    {
      frightened := false;
      for i := 0 to |ghosts|
        invariant forall j :: 0 <= j < i ==> !ghosts[j].state.IsFrightened()
      {
        if ghosts[i].state.IsFrightened() {
          return true;
        }
      }
    }

    /** Some ghost is running back to the nest or has just been asked to. */
    method IsEscapeState() returns (escaping: bool)
      requires Valid()
      ensures escaping <==> exists g :: g in ghosts && (g.state.current == Escape || g.state.next == Escape)
    {
      escaping := false;
      for i := 0 to |ghosts|
        invariant forall j :: 0 <= j < i ==> ghosts[j].state.current != Escape && ghosts[j].state.next != Escape
      {
        if ghosts[i].state.current == Escape || ghosts[i].state.next == Escape {
          return true;
        }
      }
    }

    /** Some ghost waits in the nest. */
    method IsGhostInNest() returns (inNest: bool)
      requires Valid()
      ensures inNest <==> exists g :: g in ghosts && g.state.current == Standby
    {
      inNest := false;
      for i := 0 to |ghosts|
        invariant forall j :: 0 <= j < i ==> ghosts[j].state.current != Standby
      {
        if ghosts[i].state.current == Standby {
          return true;
        }
      }
    }

    /**
     * The first ghost (in order) touching the player decides: a frightened
     * one is eaten and runs back to the nest, and its position is recorded;
     * any other not already running back catches the player.
     */
    method DetectCollision(player: Pos) returns (result: CollisionResult)
      requires Valid()
      modifies this`collisionPosition, ghosts`state
      ensures Valid()
      ensures var k := old(FirstTouch(PositionsOf(ghosts), player));
        && (k == -1 ==> result == NoCollision)
        && (k >= 0 ==>
              var before := old(ghosts[k].state);
              && (before.IsFrightened() ==>
                    result == PlayerEatsGhost && ghosts[k].state == before.Set(Escape)
                    && collisionPosition == ghosts[k].position)
              && (!before.IsFrightened() ==>
                    ghosts[k].state == before
                    && result == (if before.IsEscaping() then NoCollision else PlayerMiss)))
      ensures var k := old(FirstTouch(PositionsOf(ghosts), player));
        forall i :: 0 <= i < |ghosts| && i != k ==> ghosts[i].state == old(ghosts[i].state)
    {
      var i := FindTouch(player);
      assert i == old(FirstTouch(PositionsOf(ghosts), player));
      if i == -1 {
        return NoCollision;
      }
      result := CollideWith(i);
    }

    /**
     * The i-th ghost touches the player: a frightened one is eaten and runs
     * back to the nest, and its position is recorded; any other not already
     * running back catches the player. No other ghost changes.
     */
    method CollideWith(i: int) returns (result: CollisionResult)
      requires Valid() && 0 <= i < |ghosts|
      modifies this`collisionPosition, ghosts`state
      ensures Valid()
      ensures var before := old(ghosts[i].state);
        && (before.IsFrightened() ==>
              result == PlayerEatsGhost && ghosts[i].state == before.Set(Escape)
              && collisionPosition == ghosts[i].position)
        && (!before.IsFrightened() ==>
              ghosts[i].state == before
              && result == (if before.IsEscaping() then NoCollision else PlayerMiss))
      ensures forall j :: 0 <= j < |ghosts| && j != i ==> ghosts[j].state == old(ghosts[j].state)
    {
      var g := ghosts[i];
      result := NoCollision;
      if g.state.IsFrightened() {
        assert forall j :: 0 <= j < |ghosts| && j != i ==> ghosts[j] != g;
        g.SetStateToEscape();
        collisionPosition := g.position;
        result := PlayerEatsGhost;
      } else if !g.state.IsEscaping() {
        result := PlayerMiss;
      }
    }

    /** The scan of the ghosts, in order, for the first one touching the player; -1 when none does. */
    method FindTouch(player: Pos) returns (i: int)
      requires Valid()
      ensures i == FirstTouch(PositionsOf(ghosts), player)
    {
      ghost var ps := PositionsOf(ghosts);
      FirstTouchIsFirst(ps, player);
      i := 0;
      while i < |ghosts| && !Touches(ghosts[i].position, player)
        invariant 0 <= i <= |ghosts| && forall j :: 0 <= j < i ==> !Touches(ps[j], player)
        decreases |ghosts| - i
      {
        i := i + 1;
      }
      if i == |ghosts| {
        i := -1;
      }
    }

    /** Enable every ghost that is not running back to the nest. */
    method StartWithoutEscaping()
      requires Valid()
      modifies ghosts`enabled
      ensures Valid()
      ensures forall i :: 0 <= i < |ghosts| ==>
                ghosts[i].enabled == (old(ghosts[i].enabled) || !ghosts[i].state.IsEscaping())
    {
      for i := 0 to |ghosts|
        invariant Valid()
        invariant forall j :: 0 <= j < |ghosts| ==> ghosts[j].state == old(ghosts[j].state)
        invariant forall j :: 0 <= j < i ==> ghosts[j].enabled == (old(ghosts[j].enabled) || !ghosts[j].state.IsEscaping())
        invariant forall j :: i <= j < |ghosts| ==> ghosts[j].enabled == old(ghosts[j].enabled)
      {
        if !ghosts[i].state.IsEscaping() {
          ghosts[i].Start();
        }
      }
    }

    /** Disable every ghost that is not running back to the nest. */
    method StopWithoutEscaping()
      requires Valid()
      modifies ghosts`enabled
      ensures Valid()
      ensures forall i :: 0 <= i < |ghosts| ==>
                ghosts[i].enabled == (old(ghosts[i].enabled) && ghosts[i].state.IsEscaping())
    {
      for i := 0 to |ghosts|
        invariant Valid()
        invariant forall j :: 0 <= j < |ghosts| ==> ghosts[j].state == old(ghosts[j].state)
        invariant forall j :: 0 <= j < i ==> ghosts[j].enabled == (old(ghosts[j].enabled) && ghosts[j].state.IsEscaping())
        invariant forall j :: i <= j < |ghosts| ==> ghosts[j].enabled == old(ghosts[j].enabled)
      {
        if !ghosts[i].state.IsEscaping() {
          ghosts[i].Stop();
        }
      }
    }
  }

  /** Once the release loop stops at index i it reaches no later index. */
  lemma {:induction false} NotExaminedAfter(modes: seq<GhostMode>, n: int, forced: bool, i: nat)
    requires i <= |modes| && !Examined(modes, n, forced, i)
    ensures forall j :: i <= j <= |modes| ==> !Examined(modes, n, forced, j)
  {
    forall j | i <= j <= |modes|
      ensures !Examined(modes, n, forced, j)
    {
      ExaminedIff(modes, n, forced, i);
      ExaminedIff(modes, n, forced, j);
    }
  }
}
