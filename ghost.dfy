/**
 * A ghost (CgGhost and its four kinds Blinky, Pinky, Inky and Clyde): its
 * position, direction, target and state, the actions it takes on entering
 * each mode and in each mode on every update, the state changes the scene
 * asks of it, and the choice of direction at the centre of a tile.
 */
module Ghost {
  import opened Direction
  import opened Position
  import opened Grid
  import opened GhostState
  import opened Steering
  import Context

  datatype GhostKind = Blinky | Pinky | Inky | Clyde

  datatype Restriction = Unrestricted | OnlyVertical

  /** Where each kind starts a round, the heading it starts with and the mode it is asked for. */
  function HomePosition(kind: GhostKind): (r: Pos)
    ensures r.Valid() && r.dx == HALF_MAZE_UNIT && r.dy == 0
  {
    match kind
    case Blinky => Placed(13, 21, 4, 0)
    case Pinky => Placed(13, 18, 4, 0)
    case Inky => Placed(11, 18, 4, 0)
    case Clyde => Placed(15, 18, 4, 0)
  }

  function HomeHeading(kind: GhostKind): (r: Dir)
    ensures r.IsHeading()
  {
    match kind
    case Blinky => Left
    case Pinky => Down
    case _ => Up
  }

  /** Blinky starts outside the nest, scattering; the others wait inside it. */
  function HomeMode(kind: GhostKind): (r: GhostMode)
    ensures r == Scatter <==> kind == Blinky
    ensures r != Scatter ==> r == Standby
  {
    if kind == Blinky then Scatter else Standby
  }

  /** The tile just above the nest's gate, where ghosts leave and re-enter the nest. */
  const NEST_EXIT: Pos := Placed(13, 21, 4, 0)

  /** Each kind scatters to its own corner of the board. */
  function ScatterTarget(kind: GhostKind): (r: Pos)
    ensures r.Valid()
  {
    match kind
    case Blinky => Placed(25, 35, 0, 0)
    case Pinky => Placed(2, 35, 0, 0)
    case Inky => Placed(27, 0, 0, 0)
    case Clyde => Placed(0, 0, 0, 0)
  }

  /** The place inside the nest a returning ghost walks back to. */
  function NestTarget(kind: GhostKind): (r: Pos)
    ensures r.Valid() && r.row == 18 && r.dx == HALF_MAZE_UNIT && r.dy == -HALF_MAZE_UNIT
  {
    match kind
    case Blinky => Placed(13, 18, 4, -4)
    case Pinky => Placed(13, 18, 4, -4)
    case Inky => Placed(11, 18, 4, -4)
    case Clyde => Placed(15, 18, 4, -4)
  }

  /** The heading a ghost bobs in while waiting in the nest: Pinky down, the others up. */
  function StandbyHeading(kind: GhostKind): (r: Dir)
    ensures r in {Up, Down}
    ensures r == Down <==> kind == Pinky
  {
    if kind == Pinky then Down else Up
  }

  /** The tile Pinky aims at: four tiles ahead of the player. */
  function PinkyTarget(player: Pos, playerDirection: Dir): (r: Pos)
    ensures r.dx == 0 && r.dy == 0
  {
    Placed(player.column + HorizontalDelta(playerDirection) * 4, player.row + VerticalDelta(playerDirection) * 4, 0, 0)
  }

  /** The tile Inky aims at: Blinky's tile mirrored through the player's. */
  function InkyTarget(player: Pos, blinky: Pos): (r: Pos)
    ensures r.dx == 0 && r.dy == 0
  {
    Placed(player.column + (player.column - blinky.column), player.row + (player.row - blinky.row), 0, 0)
  }

  /** Clyde chases the player only from more than 130 dots away. */
  predicate ClydeFarFromPlayer(clyde: Pos, player: Pos) {
    var dx := player.X() - clyde.X();
    var dy := player.Y() - clyde.Y();
    dx * dx + dy * dy > 130 * 130
  }

  /** Squaring is monotone on magnitudes. */
  lemma SquareMonotone(a: int, b: int)
    requires Abs(a) <= Abs(b)
    ensures a * a <= b * b
  {
    var x, y := Abs(a), Abs(b);
    assert a * a == x * x by { if a < 0 { assert a * a == (-a) * (-a); } }
    assert b * b == y * y by { if b < 0 { assert b * b == (-b) * (-b); } }
    ScaleMonotone(x, x, y);
    ScaleMonotone(y, x, y);
    assert x * y == y * x;
  }

  /** Scaling by a non-negative factor keeps order. */
  lemma ScaleMonotone(k: int, a: int, b: int)
    requires 0 <= k && a <= b
    ensures k * a <= k * b
  {
    assert k * b - k * a == k * (b - a);
  }

  /**
   * Clyde is far from the player whenever they are more than 130 dots
   * apart along one axis, and never while within 91 dots along both.
   */
  lemma ClydeFarAlongAxes(clyde: Pos, player: Pos)
    ensures Abs(player.X() - clyde.X()) > 130 || Abs(player.Y() - clyde.Y()) > 130 ==> ClydeFarFromPlayer(clyde, player)
    ensures Abs(player.X() - clyde.X()) <= 91 && Abs(player.Y() - clyde.Y()) <= 91 ==> !ClydeFarFromPlayer(clyde, player)
  {
    var dx := player.X() - clyde.X();
    var dy := player.Y() - clyde.Y();
    assert dy * dy >= 0 && dx * dx >= 0;
    if Abs(dx) > 130 {
      SquareMonotone(131, dx);
    } else if Abs(dy) > 130 {
      SquareMonotone(131, dy);
    }
    if Abs(dx) <= 91 && Abs(dy) <= 91 {
      SquareMonotone(dx, 91);
      SquareMonotone(dy, 91);
    }
  }

  /**
   * Pinky aims at the player's tile moved four tiles along the player's
   * heading, and at the player's own tile when the player is not heading
   * anywhere; the player's tile is the midpoint of Blinky's tile and
   * Inky's target.
   */
  lemma ChaseTargets(player: Pos, playerDirection: Dir, blinky: Pos)
    ensures playerDirection.IsHeading() ==>
              Distance(player, PinkyTarget(player, playerDirection), Dir.Stop) == 16
    ensures !playerDirection.IsHeading() ==>
              PinkyTarget(player, playerDirection).column == player.column
              && PinkyTarget(player, playerDirection).row == player.row
    ensures InkyTarget(player, blinky).column + blinky.column == 2 * player.column
    ensures InkyTarget(player, blinky).row + blinky.row == 2 * player.row
  {
  }

  /** What updateDirection does to a position and heading pair. */
  function Redirect(p: Pos, h: Heading, d: Dir): (r: (Pos, Heading))
    ensures h.current == d ==> r == (p, h)
    ensures h.current != d && d != Stop ==> r.1 == Heading(d, d)
    ensures p.Valid() ==> r.0.Valid()
    ensures r.0.column == p.column && r.0.row == p.row && r.0.dx == p.dx && r.0.dy == p.dy
  {
    if h.current != d then (p.RoundDown(Stop).(amountMoved := 1), h.Set(d).Update()) else (p, h)
  }

  /**
   * The standby loop: move heading d (up or down) until the offset reaches
   * half a tile that way; there, ask for the reverse heading. Returns the
   * position and whether the reverse was asked for.
   */
  function Bob(p: Pos, d: Dir, speed: int): (Pos, bool)
    decreases if speed > 0 then speed else 0
  {
    if speed <= 0 then (p, false)
    else if (d == Up && p.dy != HALF_MAZE_UNIT) || (d == Down && p.dy != -HALF_MAZE_UNIT) then
      var (q, s) := p.Move(d, speed);
      Bob(q, d, s)
    else (p, true)
  }

  /**
   * A ghost bobbing in the nest stays within half a tile of the nest's
   * centre line, on its own column, and turns only at the edge of that
   * band (or at once when it is not heading up or down).
   */
  lemma {:induction false} BobStaysInNest(p: Pos, d: Dir, speed: int)
    requires p.Valid() && -HALF_MAZE_UNIT <= p.dy <= HALF_MAZE_UNIT
    ensures var r := Bob(p, d, speed);
      && r.0.Valid() && -HALF_MAZE_UNIT <= r.0.dy <= HALF_MAZE_UNIT
      && r.0.row == p.row && r.0.column == p.column && r.0.dx == p.dx
      && (r.1 ==> (d == Up ==> r.0.dy == HALF_MAZE_UNIT) && (d == Down ==> r.0.dy == -HALF_MAZE_UNIT))
    decreases if speed > 0 then speed else 0
  {
    if speed > 0 && ((d == Up && p.dy != HALF_MAZE_UNIT) || (d == Down && p.dy != -HALF_MAZE_UNIT)) {
      var (q, s) := p.Move(d, speed);
      BobStaysInNest(q, d, s);
    }
  }

  /** Where the walk in or out of the nest ended, the heading, and whether the target was reached. */
  datatype NestWalk = NestWalk(pos: Pos, heading: Heading, arrived: bool)

  /**
   * The loop that walks a ghost out of the nest (horizontal offset first)
   * or back into it (vertical first): move along the current heading while
   * it points towards the target, ask for the other heading when it does
   * not, and report arrival when no offset is left.
   */
  function WalkToTarget(p: Pos, h: Heading, target: Pos, speed: int, verticalFirst: bool): NestWalk
    decreases if speed > 0 then speed else 0
  {
    if speed <= 0 then NestWalk(p, h, false)
    else
      var first := TargetDirection(p, target, if verticalFirst then Vertical else Horizontal);
      var d := if first != Stop then first else TargetDirection(p, target, if verticalFirst then Horizontal else Vertical);
      if d != Stop then
        if d == h.current then
          var (q, s) := p.Move(h.current, speed);
          WalkToTarget(q, h, target, s, verticalFirst)
        else NestWalk(p, h.Set(d), false)
      else NestWalk(p, h, true)
  }

  /** Distance in dots, along both axes, from p to the target. */
  function DotDistance(p: Pos, target: Pos): int {
    Abs(target.X() - p.X()) + Abs(target.Y() - p.Y())
  }

  /** One step towards a target on the board never takes an actor farther from it. */
  lemma MoveTowards(p: Pos, d: Dir, speed: int, target: Pos)
    requires p.Valid() && target.Valid() && speed >= 0
    requires d.IsHeading() && HorizontalDelta(d) * (target.X() - p.X()) + VerticalDelta(d) * (target.Y() - p.Y()) > 0
    ensures DotDistance(p.Move(d, speed).0, target) <= DotDistance(p, target)
  {
    var q := p.Move(d, speed).0;
    if d == Left || d == Right {
      assert q.Y() == p.Y();
      assert q.X() == p.X() || q.X() == p.X() + HorizontalDelta(d);
    } else {
      assert q.X() == p.X();
      assert q.Y() == p.Y() || q.Y() == p.Y() + VerticalDelta(d);
    }
  }

  /**
   * Walking in or out of the nest never takes a ghost farther from its
   * target, keeps a valid position valid, and arrival means the ghost is
   * exactly on the target.
   */
  lemma {:induction false} WalkApproaches(p: Pos, h: Heading, target: Pos, speed: int, verticalFirst: bool)
    requires p.Valid() && target.Valid()
    ensures var w := WalkToTarget(p, h, target, speed, verticalFirst);
      && w.pos.Valid()
      && DotDistance(w.pos, target) <= DotDistance(p, target)
      && (w.arrived ==> w.pos.X() == target.X() && w.pos.Y() == target.Y())
      && w.heading.current == h.current
    decreases if speed > 0 then speed else 0
  {
    if speed > 0 {
      var first := TargetDirection(p, target, if verticalFirst then Vertical else Horizontal);
      var d := if first != Stop then first else TargetDirection(p, target, if verticalFirst then Horizontal else Vertical);
      if d != Stop && d == h.current {
        var (q, s) := p.Move(h.current, speed);
        MoveTowards(p, d, speed, target);
        WalkApproaches(q, h, target, s, verticalFirst);
      }
    }
  }

  /**
   * The choice by target at the centre of a tile: the nearest passable
   * heading other than straight back, and back only when there is no
   * other; off-centre the ghost keeps its heading.
   */
  function ChoiceByTarget(grid: CgMazeGrid, p: Pos, current: Dir, target: Pos, oneWay: bool): (r: Dir)
    requires grid.Valid()
    reads grid, grid.attributes
  {
    if !p.IsCenter() then current
    else
      var n := Nearest(Passable(grid, p, oneWay) - {Reverse(current)}, p, target);
      if n == Dir.None then Reverse(current) else n
  }

  /**
   * At a centre, the choice by target is a passable heading nearest the
   * target among those that do not turn back; it turns back only when no
   * other heading is passable.
   */
  lemma ChoiceByTargetSound(grid: CgMazeGrid, p: Pos, current: Dir, target: Pos, oneWay: bool)
    requires grid.Valid() && p.IsCenter()
    ensures var allowed := Passable(grid, p, oneWay) - {Reverse(current)};
      && (ChoiceByTarget(grid, p, current, target, oneWay) == Reverse(current) <==> allowed == {})
      && (allowed != {} ==> IsNearest(allowed, p, target, ChoiceByTarget(grid, p, current, target, oneWay)))
  {
    var allowed := Passable(grid, p, oneWay) - {Reverse(current)};
    NearestCorrect(allowed, p, target);
    assert allowed * Headings == allowed;
  }

  /** The choice of a frightened (or wandering) ghost from the random heading start. */
  function ChoiceByRandom(grid: CgMazeGrid, p: Pos, current: Dir, start: Dir, oneWay: bool): Dir
    requires grid.Valid()
    reads grid, grid.attributes
  {
    if !p.IsCenter() then current else RandomChoice(Passable(grid, p, oneWay), current, start)
  }

  /**
   * At a centre with some heading open, the random choice is an open
   * heading, and it turns back only when that is the one open heading.
   */
  lemma ChoiceByRandomSound(grid: CgMazeGrid, p: Pos, current: Dir, start: Dir, oneWay: bool)
    requires grid.Valid() && p.IsCenter() && start.IsHeading() && Passable(grid, p, oneWay) != {}
    ensures ChoiceByRandom(grid, p, current, start, oneWay) in Passable(grid, p, oneWay)
    ensures current.IsHeading() && ChoiceByRandom(grid, p, current, start, oneWay) == Reverse(current) ==>
              Passable(grid, p, oneWay) == {Reverse(current)}
  {
    var passable := Passable(grid, p, oneWay);
    assert passable * Headings == passable;
    RandomChoiceSound(passable, current, start);
  }

  /**
   * The choice of heading in move(): a ghost that has moved a dot since its
   * last turn chooses again (by target or at random), and a new heading
   * drops the fractions and restarts the dot count. Returns the position
   * and heading after the choice and the heading to travel.
   */
  function Steer(grid: CgMazeGrid, p: Pos, h: Heading, target: Pos, byTarget: bool, start: Dir, oneWay: bool): (r: (Pos, Heading, Dir))
    requires grid.Valid()
    reads grid, grid.attributes
    ensures p.amountMoved <= 0 ==> r == (p, h, h.current)
    ensures p.amountMoved > 0 ==> r.1 == h.Set(r.2)
    ensures !p.IsCenter() ==> r.2 == h.current
    ensures p.Valid() ==> r.0.Valid()
  {
    if p.amountMoved <= 0 then (p, h, h.current)
    else
      var next := if byTarget then ChoiceByTarget(grid, p, h.current, target, oneWay)
                  else ChoiceByRandom(grid, p, h.current, start, oneWay);
      var h' := h.Set(next);
      (if h'.IsChanging() then p.RoundDown(Stop).(amountMoved := 0) else p, h', next)
  }

  class CgGhost {
    const grid: CgMazeGrid
    const kind: GhostKind
    var enabled: bool
    var position: Pos
    var heading: Heading
    var target: Pos
    var state: GhostStateValue
    var restriction: Restriction
    /** Clyde only: whether the chase mode follows the player (true) or wanders (false). */
    var chaseMode: bool

    predicate Valid()
      reads this`position, grid
    {
      grid.Valid() && position.Valid()
    }

    constructor(grid: CgMazeGrid, kind: GhostKind)
      requires grid.Valid()
      ensures Valid() && this.grid == grid && this.kind == kind
      ensures !enabled && position == Placed(0, 0, 0, 0) && heading == Heading(Dir.None, Dir.None)
      ensures state == InitialGhostState && restriction == Unrestricted && !chaseMode
    {
      this.grid := grid;
      this.kind := kind;
      enabled := false;
      position := Placed(0, 0, 0, 0);
      heading := Heading(Dir.None, Dir.None);
      target := Placed(0, 0, 0, 0);
      state := InitialGhostState;
      restriction := Unrestricted;
      chaseMode := false;
    }

    /**
     * Back to the start of a round: disabled, at the kind's home facing its
     * home heading, asked for its home mode, with the state's timers reset.
     */
    method Reset()
      modifies this
      ensures Valid() == grid.Valid()
      ensures !enabled && position == HomePosition(kind).(amountMoved := 1)
      ensures heading == Heading(HomeHeading(kind), HomeHeading(kind))
      ensures state == old(state).Reset().Set(HomeMode(kind)) && state.IsChanging()
      ensures restriction == Unrestricted && target == old(target)
      ensures kind == Clyde ==> !chaseMode
      ensures kind != Clyde ==> chaseMode == old(chaseMode)
    {
      enabled := false;
      position := Placed(0, 0, 0, 0);
      heading := StoppedHeading;
      heading := StoppedHeading;
      state := state.Reset();
      restriction := Unrestricted;
      if kind == Clyde {
        chaseMode := false;
      }
      position := HomePosition(kind);
      UpdateDirection(HomeHeading(kind));
      state := state.Set(HomeMode(kind));
    }

    method Start()
      modifies this`enabled
      ensures enabled
    {
      enabled := true;
    }

    method Stop()
      modifies this`enabled
      ensures !enabled
    {
      enabled := false;
    }

    /** Turn at once to d, dropping the fractions and counting one dot moved. */
    method UpdateDirection(d: Dir)
      modifies this`position, this`heading
      ensures (position, heading) == Redirect(old(position), old(heading), d)
    {
      if heading.current != d {
        heading := heading.Set(d).Update();
        position := position.RoundDown(Dir.Stop).(amountMoved := 1);
      }
    }

    /**
     * The speed of an action: walking or frightened in a slow tile is
     * warping; walking while spurting is spurting.
     */
    function SpeedFor(action: Context.GhostAction, level: Context.Level): (r: int)
      requires grid.Valid()
      reads this, grid, grid.attributes
      ensures var slow := grid.GetTileAttribute(Dir.Stop, position) == Slow;
        && (slow && (action == Context.GhostAction.Walking || action == Context.GhostAction.Frightened) ==>
              r == Context.GhostSpeed(level, Context.GhostAction.Warping))
        && (!slow && action == Context.GhostAction.Walking ==>
              r == Context.GhostSpeed(level, if state.spurt then Context.GhostAction.Spurting else Context.GhostAction.Walking))
        && (action != Context.GhostAction.Walking && action != Context.GhostAction.Frightened ==>
              r == Context.GhostSpeed(level, action))
        && 8 <= r <= 32
    {
      var road := grid.GetTileAttribute(Dir.Stop, position);
      var effective :=
        match action
        case Walking =>
          if road == Slow then Context.GhostAction.Warping
          else if state.spurt then Context.GhostAction.Spurting
          else action
        case Frightened => if road == Slow then Context.GhostAction.Warping else action
        case _ => action;
      Context.GhostSpeed(level, effective)
    }

    /**
     * canMove(direction:oneWayProhibition:): never into a wall; the one-way
     * rule closes only Up, and only into a one-way tile from a centre.
     */
    predicate CanMove(d: Dir, oneWay: bool)
      requires grid.Valid()
      reads this, grid, grid.attributes
      ensures CanMove(d, oneWay) ==> d.IsHeading() && position.CanMove(d) && grid.GetTileAttribute(d, position) != Wall
      ensures position.CanMove(d) && grid.GetTileAttribute(d, position) != Wall
              && !(oneWay && d == Up && grid.GetTileAttribute(d, position) == Oneway && position.IsCenter())
              ==> CanMove(d, oneWay)
      ensures oneWay && d == Up && grid.GetTileAttribute(d, position) == Oneway && position.IsCenter() ==> !CanMove(d, oneWay)
    {
      CanPass(grid, position, d, oneWay)
    }

    /**
     * The scan of the four headings at the centre of a tile for the one
     * nearest the target, never straight back unless nothing else is open.
     */
    method DecideDirectionByTarget(oneWay: bool) returns (next: Dir)
      requires grid.Valid()
      ensures next == ChoiceByTarget(grid, position, heading.current, target, oneWay)
    {
      var current := heading.current;
      if !position.IsCenter() {
        return current;
      }
      ghost var allowed := Passable(grid, position, oneWay) - {Reverse(current)};
      next := Dir.None;
      var minDistance := MAZE_MAX_DISTANCE;
      for i := 0 to |Order|
        invariant Scan(allowed, position, target, false, i, Pick(next, minDistance))
               == Scan(allowed, position, target, false, 0, Pick(Dir.None, MAZE_MAX_DISTANCE))
      {
        var d := Order[i];
        var open := d != Reverse(current) && CanMove(d, oneWay);
        assert open <==> d in allowed;
        if open {
          var distance := Distance(position, target, d);
          if distance < minDistance || next == Dir.None {
            minDistance := distance;
            next := d;
          }
        }
      }
      if next == Dir.None {
        next := Reverse(current);
      }
    }

    /**
     * From the random heading start, turn clockwise to the first passable
     * heading; if that turns back, go on to the next passable one.
     */
    method DecideDirectionByRandom(oneWay: bool, start: Dir) returns (next: Dir)
      requires grid.Valid() && start.IsHeading()
      requires position.IsCenter() ==> Passable(grid, position, oneWay) != {}
      ensures next == ChoiceByRandom(grid, position, heading.current, start, oneWay)
    {
      var current := heading.current;
      next := current;
      if !position.IsCenter() {
        return;
      }
      ghost var passable := Passable(grid, position, oneWay);
      ghost var first := FirstPassable(passable, start);
      next := start;
      var round := 1;
      while round < 3
        invariant 1 <= round <= 3 && next.IsHeading()
        invariant round == 1 ==> next == start
        invariant round == 2 ==> next == first && first == Reverse(current)
        invariant round == 3 ==> next == RandomChoice(passable, current, start)
        decreases 3 - round
      {
        next := TurnToPassable(next, oneWay, passable);
        if next != Reverse(current) {
          round := 3;
        } else {
          round := round + 1;
        }
      }
    }

    /** The repeat loop of the random choice: turn clockwise from from until the heading is passable. */
    method TurnToPassable(from: Dir, oneWay: bool, ghost passable: set<Dir>) returns (next: Dir)
      requires grid.Valid() && from.IsHeading() && passable == Passable(grid, position, oneWay) && passable != {}
      ensures next == FirstPassable(passable, from) && next.IsHeading()
    {
      assert passable * Headings == passable;
      ghost var k := NextPassableFound(passable, from);
      TurnsCoverHeadings(from);
      next := Clockwise(from);
      ghost var turns := 1;
      assert next == Turned(from, 1);
      while !CanMove(next, oneWay)
        invariant 1 <= turns <= k && next == Turned(from, turns)
        decreases k - turns
      {
        assert Turned(from, turns) !in passable;
        next := Clockwise(next);
        turns := turns + 1;
        assert next == Turned(from, turns) by {
          TurnedStep(from, turns - 1);
        }
      }
      assert next in passable;
      TurnsAreHeadings(from, turns);
    }

    /**
     * The move of a ghost outside the nest: once it has moved a dot since
     * its last turn it chooses a heading (by target or at random), and a
     * new heading drops the fractions and restarts the dot count; then it
     * travels.
     */
    method MoveGhost(targetSelected: bool, speed: int, oneWay: bool, start: Dir)
      requires Valid() && start.IsHeading()
      requires !targetSelected && position.IsCenter() ==> Passable(grid, position, oneWay) != {}
      modifies this`position, this`heading
      ensures Valid()
      ensures var s := old(Steer(grid, position, heading, target, targetSelected, start, oneWay));
        heading == s.1 && position == Travel(grid, s.0, s.2, speed, oneWay).0
    {
      var next := Turn(targetSelected, oneWay, start);
      Advance(next, speed, oneWay);
    }

    /** The turning half of a move: the heading chosen on a dot and the dot it is taken from. */
    method Turn(targetSelected: bool, oneWay: bool, start: Dir) returns (next: Dir)
      requires Valid() && start.IsHeading()
      requires !targetSelected && position.IsCenter() ==> Passable(grid, position, oneWay) != {}
      modifies this`position, this`heading
      ensures Valid()
      ensures (position, heading, next) == old(Steer(grid, position, heading, target, targetSelected, start, oneWay))
    {
      next := heading.current;
      if position.amountMoved > 0 {
        if targetSelected {
          next := DecideDirectionByTarget(oneWay);
        } else {
          next := DecideDirectionByRandom(oneWay, start);
        }
        heading := heading.Set(next);
        if heading.IsChanging() {
          position := position.RoundDown(Dir.Stop).(amountMoved := 0);
        }
      }
    }

    /** Spend the speed moving heading d, stopping where d is blocked. */
    method Advance(d: Dir, speed: int, oneWay: bool)
      requires Valid()
      modifies this`position
      ensures Valid() && position == Travel(grid, old(position), d, speed, oneWay).0
    {
      var remaining := speed;
      ghost var p0 := position;
      TravelFacts(grid, p0, d, speed, oneWay);
      while remaining > 0
        invariant position.Valid()
        invariant Travel(grid, position, d, remaining, oneWay).0 == Travel(grid, p0, d, speed, oneWay).0
        decreases remaining
      {
        if CanMove(d, oneWay) {
          position, remaining := position.Move(d, remaining).0, position.Move(d, remaining).1;
        } else {
          position := position.RoundDown(Dir.Stop);
          break;
        }
      }
    }

    /** In the nest: bob up and down between the two half-tile offsets. */
    method DoActionInStandby(level: Context.Level)
      requires Valid()
      modifies this`position, this`heading
      ensures Valid()
      ensures var b := Bob(old(position), old(heading).current, Context.GhostSpeed(level, Context.GhostAction.Standby));
        position == b.0 && heading == (if b.1 then old(heading).Set(Reverse(old(heading).current)) else old(heading))
    {
      var speed := SpeedFor(Context.GhostAction.Standby, level);
      var current := heading.current;
      ghost var p0 := position;
      ghost var s0 := speed;
      while speed > 0
        invariant position.Valid() && heading == old(heading)
        invariant Bob(position, current, speed) == Bob(p0, current, s0)
        decreases speed
      {
        if (current == Up && position.dy != HALF_MAZE_UNIT) || (current == Down && position.dy != -HALF_MAZE_UNIT) {
          position, speed := position.Move(current, speed).0, position.Move(current, speed).1;
        } else {
          heading := heading.Set(Reverse(current));
          break;
        }
      }
    }

    /**
     * Leaving the nest: first finish the vertical bob back to the centre
     * line if asked to, then walk to the exit; once there, ask for Scatter.
     */
    method DoActionInGoOut(level: Context.Level)
      requires Valid()
      modifies this`position, this`heading, this`restriction, this`state
      ensures Valid()
      ensures old(restriction) == OnlyVertical ==>
                var b := Bob(old(position), old(heading).current, Context.GhostSpeed(level, Context.GhostAction.Standby));
                && position == b.0
                && heading == (if b.1 then old(heading).Set(Reverse(old(heading).current)) else old(heading))
                && restriction == (if position.dy == 0 then Unrestricted else OnlyVertical)
                && state == old(state)
      ensures old(restriction) == Unrestricted ==>
                var w := WalkToTarget(old(position), old(heading), target, Context.GhostSpeed(level, Context.GhostAction.GoingOut), false);
                && position == w.pos && heading == w.heading && restriction == Unrestricted
                && state == (if w.arrived then old(state).Set(Scatter) else old(state))
    {
      if restriction == OnlyVertical {
        DoActionInStandby(level);
        if position.dy == 0 {
          restriction := Unrestricted;
        }
        return;
      }
      var speed := SpeedFor(Context.GhostAction.GoingOut, level);
      WalkOut(speed, false);
    }

    /** The walking loop shared by leaving the nest and returning into it. */
    method WalkOut(speed: int, verticalFirst: bool)
      requires Valid()
      modifies this`position, this`heading, this`state
      ensures Valid()
      ensures var w := WalkToTarget(old(position), old(heading), target, speed, verticalFirst);
        position == w.pos && heading == w.heading
        && state == (if !w.arrived then old(state)
                     else if verticalFirst then old(state).SetFrightened(false, 0).Set(Standby)
                     else old(state).Set(Scatter))
    {
      var remaining := speed;
      ghost var p0, h0 := position, heading;
      while remaining > 0
        invariant position.Valid() && state == old(state) && heading == h0
        invariant WalkToTarget(position, heading, target, remaining, verticalFirst)
               == WalkToTarget(p0, h0, target, speed, verticalFirst)
        decreases remaining
      {
        var first := TargetDirection(position, target, if verticalFirst then Vertical else Horizontal);
        var current := if first != Dir.Stop then first else TargetDirection(position, target, if verticalFirst then Horizontal else Vertical);
        if current != Dir.Stop {
          if current == heading.current {
            position, remaining := position.Move(heading.current, remaining).0, position.Move(heading.current, remaining).1;
          } else {
            heading := heading.Set(current);
            return;
          }
        } else {
          if verticalFirst {
            state := state.SetFrightened(false, 0);
            state := state.Set(Standby);
          } else {
            state := state.Set(Scatter);
          }
          return;
        }
      }
    }

    /** Back in the nest after being eaten: walk to the nest target; once there, stop being frightened and wait. */
    method DoActionInEscapeInNest(level: Context.Level)
      requires Valid()
      modifies this`position, this`heading, this`state
      ensures Valid()
      ensures var w := WalkToTarget(old(position), old(heading), target, Context.GhostSpeed(level, Context.GhostAction.Escaping), true);
        position == w.pos && heading == w.heading
        && state == (if w.arrived then old(state).SetFrightened(false, 0).Set(Standby) else old(state))
    {
      var speed := SpeedFor(Context.GhostAction.Escaping, level);
      WalkOut(speed, true);
    }

    /** Scatter and chase: walk by target, not through one-way tiles upwards. */
    method DoActionInScatter(level: Context.Level)
      requires Valid()
      modifies this`position, this`heading
      ensures Valid()
      ensures var s := old(Steer(grid, position, heading, target, true, Up, true));
        heading == s.1 && position == Travel(grid, s.0, s.2, old(SpeedFor(Context.GhostAction.Walking, level)), true).0
    {
      var speed := SpeedFor(Context.GhostAction.Walking, level);
      MoveGhost(true, speed, true, Up);
    }

    /** Clyde wanders at random in chase mode unless it is far from the player. */
    method DoActionInChase(level: Context.Level, start: Dir)
      requires Valid() && start.IsHeading()
      requires position.IsCenter() ==> Passable(grid, position, true) != {}
      modifies this`position, this`heading
      ensures Valid()
      ensures var s := old(Steer(grid, position, heading, target, kind != Clyde || chaseMode, start, true));
        heading == s.1 && position == Travel(grid, s.0, s.2, old(SpeedFor(Context.GhostAction.Walking, level)), true).0
    {
      if kind != Clyde || chaseMode {
        DoActionInScatter(level);
      } else {
        var speed := SpeedFor(Context.GhostAction.Walking, level);
        MoveGhost(false, speed, true, start);
      }
    }

    /** Eaten: run back to the nest's exit at top speed, then enter the nest. */
    method DoActionInEscape(level: Context.Level)
      requires Valid()
      modifies this`position, this`heading, this`state
      ensures Valid()
      ensures TargetDirection(old(position), target, All) == Dir.Stop ==>
                state == old(state).Set(EscapeInNest) && position == old(position) && heading == old(heading)
      ensures TargetDirection(old(position), target, All) != Dir.Stop ==>
                state == old(state)
                && var s := old(Steer(grid, position, heading, target, true, Up, false));
        heading == s.1 && position == Travel(grid, s.0, s.2, Context.GhostSpeed(level, Context.GhostAction.Escaping), false).0
    {
      if TargetDirection(position, target, All) == Dir.Stop {
        state := state.Set(EscapeInNest);
      } else {
        var speed := SpeedFor(Context.GhostAction.Escaping, level);
        MoveGhost(true, speed, false, Up);
      }
    }

    /** Frightened: wander at random, one-way tiles allowed. */
    method DoActionInFrightened(level: Context.Level, start: Dir)
      requires Valid() && start.IsHeading()
      requires position.IsCenter() ==> Passable(grid, position, false) != {}
      modifies this`position, this`heading
      ensures Valid()
      ensures var s := old(Steer(grid, position, heading, target, false, start, false));
        heading == s.1 && position == Travel(grid, s.0, s.2, old(SpeedFor(Context.GhostAction.Frightened, level)), false).0
    {
      var speed := SpeedFor(Context.GhostAction.Frightened, level);
      MoveGhost(false, speed, false, start);
    }

    /**
     * The effect of the entry action into mode, left from mode from, on a
     * ghost that stood at p0 heading h0 with target t0 and restriction r0.
     */
    ghost predicate EnteredMode(mode: GhostMode, from: GhostMode, p0: Pos, h0: Heading, t0: Pos, r0: Restriction)
      reads this
    {
      && (mode == Standby ==> (position, heading) == Redirect(p0, h0, StandbyHeading(kind)))
      && (mode == GoOut ==>
            target == NEST_EXIT && position == p0 && heading == h0
            && restriction == (if p0.dy != 0 && r0 == Unrestricted then OnlyVertical else Unrestricted))
      && (mode == Scatter ==>
            target == ScatterTarget(kind)
            && (position, heading) ==
                 (match from
                  case Chase => Redirect(p0, h0, Reverse(h0.current))
                  case GoOut =>
                    var d := TargetDirection(p0, ScatterTarget(kind), Horizontal);
                    Redirect(p0, h0, if d == Dir.Stop then Left else d)
                  case _ => (p0, h0)))
      && (mode == GhostMode.Chase ==>
            (position, heading) == (if from == Scatter then Redirect(p0, h0, Reverse(h0.current)) else (p0, h0)))
      && (mode == Escape ==> target == NEST_EXIT && position == p0 && heading == h0)
      && (mode == EscapeInNest ==> target == NestTarget(kind) && position == p0 && heading == h0)
      && (mode != GoOut ==> restriction == r0)
      && (mode in {Init, Standby, GhostMode.Chase} ==> target == t0)
      && (mode == Init ==> position == p0 && heading == h0)
    }

    /**
     * The entry action into the requested mode, run before it is committed
     * (so state.current is still the mode being left).
     */
    method EntryAction(mode: GhostMode)
      requires Valid()
      modifies this`position, this`heading, this`target, this`restriction
      ensures Valid()
      ensures EnteredMode(mode, state.current, old(position), old(heading), old(target), old(restriction))
      ensures SameSpot(position, old(position))
    {
      match mode
      case Init =>
      case Standby =>
        UpdateDirection(StandbyHeading(kind));
      case GoOut =>
        target := NEST_EXIT;
        restriction := if position.dy != 0 && restriction == Unrestricted then OnlyVertical else Unrestricted;
      case Scatter =>
        target := ScatterTarget(kind);
        match state.current {
          case Chase =>
            UpdateDirection(Reverse(heading.current));
          case GoOut =>
            var next := TargetDirection(position, target, Horizontal);
            if next == Dir.Stop {
              next := Left;
            }
            UpdateDirection(next);
          case _ =>
        }
      case Chase =>
        if state.current == Scatter {
          UpdateDirection(Reverse(heading.current));
        }
      case Escape =>
        target := NEST_EXIT;
      case EscapeInNest =>
        target := NestTarget(kind);
    }

    /** The mode's action for one update. */
    method DoAction(level: Context.Level, start: Dir)
      requires Valid() && start.IsHeading()
      requires position.IsCenter() ==> Passable(grid, position, true) != {}
      modifies this`position, this`heading, this`restriction, this`state
      ensures Valid()
      ensures state.current == old(state).current
      ensures old(state).current == Init ==>
                position == old(position) && heading == old(heading) && state == old(state) && restriction == old(restriction)
      ensures old(state).current == Standby ==>
                var b := Bob(old(position), old(heading).current, Context.GhostSpeed(level, Context.GhostAction.Standby));
                position == b.0 && heading == (if b.1 then old(heading).Set(Reverse(old(heading).current)) else old(heading))
      ensures old(state).current == GoOut && old(restriction) == OnlyVertical ==>
                var b := Bob(old(position), old(heading).current, Context.GhostSpeed(level, Context.GhostAction.Standby));
                && position == b.0
                && heading == (if b.1 then old(heading).Set(Reverse(old(heading).current)) else old(heading))
                && restriction == (if position.dy == 0 then Unrestricted else OnlyVertical)
                && state == old(state)
      ensures old(state).current == GoOut && old(restriction) == Unrestricted ==>
                var w := WalkToTarget(old(position), old(heading), target, Context.GhostSpeed(level, Context.GhostAction.GoingOut), false);
                position == w.pos && heading == w.heading && state == (if w.arrived then old(state).Set(Scatter) else old(state))
      ensures old(state).current in {Scatter, GhostMode.Chase} && old(state).IsFrightened() ==>
                var s := old(Steer(grid, position, heading, target, false, start, false));
                heading == s.1 && position == Travel(grid, s.0, s.2, old(SpeedFor(Context.GhostAction.Frightened, level)), false).0
      ensures old(state).current == Scatter && !old(state).IsFrightened() ==>
                var s := old(Steer(grid, position, heading, target, true, Up, true));
                heading == s.1 && position == Travel(grid, s.0, s.2, old(SpeedFor(Context.GhostAction.Walking, level)), true).0
      ensures old(state).current == GhostMode.Chase && !old(state).IsFrightened() ==>
                var s := old(Steer(grid, position, heading, target, kind != Clyde || chaseMode, start, true));
                heading == s.1 && position == Travel(grid, s.0, s.2, old(SpeedFor(Context.GhostAction.Walking, level)), true).0
      ensures old(state).current == Escape && TargetDirection(old(position), target, All) == Dir.Stop ==>
                state == old(state).Set(EscapeInNest) && position == old(position) && heading == old(heading)
      ensures old(state).current == Escape && TargetDirection(old(position), target, All) != Dir.Stop ==>
                state == old(state)
                && var s := old(Steer(grid, position, heading, target, true, Up, false));
                heading == s.1 && position == Travel(grid, s.0, s.2, Context.GhostSpeed(level, Context.GhostAction.Escaping), false).0
      ensures old(state).current == EscapeInNest ==>
                var w := WalkToTarget(old(position), old(heading), target, Context.GhostSpeed(level, Context.GhostAction.Escaping), true);
                position == w.pos && heading == w.heading
                && state == (if w.arrived then old(state).SetFrightened(false, 0).Set(Standby) else old(state))
    {
      PassableOneWayIncluded(grid, position);
      match state.current
      case Init =>
      case Standby =>
        DoActionInStandby(level);
      case GoOut =>
        DoActionInGoOut(level);
      case Scatter =>
        if state.IsFrightened() {
          DoActionInFrightened(level, start);
        } else {
          DoActionInScatter(level);
        }
      case Chase =>
        if state.IsFrightened() {
          DoActionInFrightened(level, start);
        } else {
          DoActionInChase(level, start);
        }
      case Escape =>
        DoActionInEscape(level);
      case EscapeInNest =>
        DoActionInEscapeInNest(level);
    }

    /**
     * One update of the ghost: run the entry action of a requested mode and
     * commit it; stop (disable itself) when it is about to wait in the nest
     * while the scene is suspended; otherwise act in its mode and commit a
     * new heading.
     */
    method Update(level: Context.Level, suspend: bool, start: Dir)
      requires Valid() && start.IsHeading()
      requires position.IsCenter() ==> Passable(grid, position, true) != {}
      modifies this`position, this`heading, this`target, this`restriction, this`state, this`enabled
      ensures Valid()
      ensures state.current == old(state).next
      ensures old(state).next == Standby && suspend ==> !enabled
      ensures !(old(state).next == Standby && suspend) ==>
                enabled == old(enabled) && !state.updateDrawing && (!heading.IsChanging() || heading.next == Dir.Stop)
    {
      CommitMode();
      if state.next == Standby && suspend {
        enabled := false;
        return;
      }
      DoAction(level, start);
      CommitHeading();
    }

    /** The first part of an update: a requested mode runs its entry action and becomes current. */
    method CommitMode()
      requires Valid()
      requires position.IsCenter() ==> Passable(grid, position, true) != {}
      modifies this`position, this`heading, this`target, this`restriction, this`state
      ensures Valid()
      ensures position.IsCenter() ==> Passable(grid, position, true) != {}
      ensures state.current == old(state).next && state.next == old(state).next
      ensures state == old(state).Update()
      ensures old(state).IsChanging() ==>
                EnteredMode(old(state).next, old(state).current, old(position), old(heading), old(target), old(restriction))
      ensures !old(state).IsChanging() ==>
                position == old(position) && heading == old(heading) && target == old(target) && restriction == old(restriction)
    {
      if state.IsChanging() {
        ghost var p0 := position;
        EntryAction(state.next);
        PassableOnSameSpot(grid, p0, position, true);
        state := state.Update();
      }
    }

    /** The last part of an update: a pending heading is committed on the dot it was reached. */
    method CommitHeading()
      requires Valid()
      modifies this`position, this`heading, this`state
      ensures Valid()
      ensures state == old(state).(updateDrawing := false)
      ensures heading == (if old(heading).IsChanging() then old(heading).Update() else old(heading))
      ensures position == (if old(heading).IsChanging() then old(position).RoundDown(Dir.Stop) else old(position))
      ensures !heading.IsChanging() || heading.next == Dir.Stop
    {
      if state.IsChanging() || heading.IsChanging() || state.updateDrawing {
        if heading.IsChanging() {
          position := position.RoundDown(Dir.Stop);
          heading := heading.Update();
        }
        state := state.(updateDrawing := false);
      }
    }

    /**
     * One update message: an enabled ghost updates itself and then its
     * state (even when the update has just disabled it); a disabled ghost
     * ignores the message.
     */
    method Frame(interval: int, level: Context.Level, suspend: bool, start: Dir)
      requires Valid() && start.IsHeading()
      requires position.IsCenter() ==> Passable(grid, position, true) != {}
      modifies this`position, this`heading, this`target, this`restriction, this`state, this`enabled
      ensures Valid()
      ensures !old(enabled) ==> position == old(position) && state == old(state) && !enabled
    {
      if enabled {
        Update(level, suspend, start);
        state := state.Frame(interval);
      }
    }

    /** The scene's requests for a new mode, each taken only from the modes the program allows. */
    method SetStateToStandby()
      modifies this`state
      ensures state == if old(state).current == EscapeInNest then old(state).Set(Standby) else old(state)
    {
      if state.current == EscapeInNest {
        state := state.Set(Standby);
      }
    }

    method SetStateToGoOut()
      modifies this`state
      ensures state == if old(state).current == Standby then old(state).Set(GoOut) else old(state)
    {
      if state.current == Standby {
        state := state.Set(GoOut);
      }
    }

    method SetStateToScatter()
      modifies this`state
      ensures state == if old(state).current == GhostMode.Chase then old(state).Set(Scatter) else old(state)
    {
      if state.current == GhostMode.Chase {
        state := state.Set(Scatter);
      }
    }

    /** Eating a power feed frightens every ghost that is not already returning to the nest, and turns it round. */
    method SetStateToFrightened(time: int)
      requires Valid()
      modifies this`state, this`position, this`heading
      ensures Valid()
      ensures old(state).IsEscaping() ==> state == old(state) && position == old(position) && heading == old(heading)
      ensures !old(state).IsEscaping() ==>
                state == old(state).SetFrightened(true, time)
                && (position, heading) == Redirect(old(position), old(heading), Reverse(old(heading).current))
    {
      if state.IsEscaping() {
        return;
      }
      state := state.SetFrightened(true, time);
      UpdateDirection(Reverse(heading.current));
    }

    /** A frightened ghost the player catches runs back to the nest. */
    method SetStateToEscape()
      modifies this`state
      ensures state == if old(state).IsFrightened() then old(state).Set(Escape) else old(state)
    {
      if state.IsFrightened() {
        state := state.Set(Escape);
      }
    }

    /**
     * GhostMode.Chase the player: Blinky aims at the player, Pinky four tiles ahead
     * of it, Inky at Blinky mirrored through it, Clyde at the player but
     * only follows it from afar. Taken only in scatter or chase and when
     * not frightened.
     */
    method Chase(player: Pos, playerDirection: Dir, blinky: Pos)
      modifies this`state, this`target, this`chaseMode
      ensures var aim := match kind
                         case Pinky => PinkyTarget(player, playerDirection)
                         case Inky => InkyTarget(player, blinky)
                         case _ => player;
        var allowed := (old(state).current == Scatter || old(state).current == GhostMode.Chase) && !old(state).IsFrightened();
        && state == (if allowed then old(state).Set(GhostMode.Chase) else old(state))
        && target == (if allowed then Placed(aim.column, aim.row, 0, 0) else old(target))
      ensures kind == Clyde ==> (chaseMode <==> ClydeFarFromPlayer(position, player))
      ensures kind != Clyde ==> chaseMode == old(chaseMode)
    {
      var aim := player;
      match kind {
        case Pinky =>
          aim := PinkyTarget(player, playerDirection);
        case Inky =>
          aim := InkyTarget(player, blinky);
        case Clyde =>
          var dx := player.X() - position.X();
          var dy := player.Y() - position.Y();
          chaseMode := dx * dx + dy * dy > 130 * 130;
        case Blinky =>
      }
      if (state.current == Scatter || state.current == GhostMode.Chase) && !state.IsFrightened() {
        state := state.Set(GhostMode.Chase);
        target := Placed(aim.column, aim.row, 0, 0);
      }
    }
  }

  lemma TurnedStep(d: Dir, k: nat)
    ensures Turned(d, k + 1) == Clockwise(Turned(d, k))
    decreases k
  {
    if k > 0 {
      TurnedStep(Clockwise(d), k - 1);
    }
  }

  /** p and q are at the same dot of the same tile (their fractions and counts may differ). */
  predicate SameSpot(p: Pos, q: Pos) {
    p.column == q.column && p.row == q.row && p.dx == q.dx && p.dy == q.dy
  }

  /** Which headings are open depends only on the tile and the offset within it. */
  lemma PassableOnSameSpot(grid: CgMazeGrid, p: Pos, q: Pos, oneWay: bool)
    requires grid.Valid() && SameSpot(p, q)
    ensures Passable(grid, p, oneWay) == Passable(grid, q, oneWay)
    ensures p.IsCenter() == q.IsCenter()
  {
    forall d | d in Headings
      ensures CanPass(grid, p, d, oneWay) == CanPass(grid, q, d, oneWay)
    {
      assert grid.GetTileAttribute(d, p) == grid.GetTileAttribute(d, q);
    }
  }}
