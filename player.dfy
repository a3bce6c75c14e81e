/**
 * The player (CgPlayer): steering by swipe or by touch, cornering, and
 * walking along the maze, eating the feed, power feed or fruit ahead.
 * Eating is reported to the caller as a Meal, which the maze scene acts on.
 */
module Player {
  import opened Wrappers
  import opened Direction
  import opened Position
  import opened Grid
  import opened Timer
  import opened Steering
  import Context

  /** The tile the player is about to eat and where it is. */
  datatype Meal = Meal(column: int, row: int, tile: Tile)

  datatype Action = Idle | Turning

  /** Where the player starts every round and every life. */
  const PLAYER_HOME: Pos := Placed(13, 9, 4, 0)

  /**
   * Swift's `/` on Int, which truncates towards zero (Dafny's `/` is
   * Euclidean); the x and y setters divide pixel coordinates with it.
   */
  function TruncDiv(a: int, b: int): int
    requires b > 0
  {
    if a >= 0 then a / b else -((-a) / b)
  }

  /** Swift's `%` on Int: the remainder that goes with TruncDiv, taking the sign of a. */
  function TruncMod(a: int, b: int): (r: int)
    requires b > 0
    ensures a == b * TruncDiv(a, b) + r
    ensures a >= 0 ==> 0 <= r < b
    ensures a < 0 ==> -b < r <= 0
  {
    a - b * TruncDiv(a, b)
  }

  /**
   * The position of the pixel (x, y), as the x and y setters compute it:
   * column `(x + CG_X_ORIGIN) / MAZE_UNIT` and dx `(x + CG_X_ORIGIN) % MAZE_UNIT`
   * with Swift's truncating `/` and `%`, and the same for the row, with no
   * fractions.
   */
  function FromPixels(x: int, y: int): (r: Pos)
  {
    Placed(TruncDiv(x + CG_X_ORIGIN, MAZE_UNIT), TruncDiv(y + CG_Y_ORIGIN, MAZE_UNIT),
           TruncMod(x + CG_X_ORIGIN, MAZE_UNIT), TruncMod(y + CG_Y_ORIGIN, MAZE_UNIT))
  }

  /**
   * Setting a position from pixels and reading the pixels back gives the
   * same pixels; a pixel on the board gives a valid position with
   * non-negative offsets.
   */
  lemma FromPixelsRoundTrip(x: int, y: int)
    ensures FromPixels(x, y).X() == x && FromPixels(x, y).Y() == y
    ensures 4 <= x < 4 + BG_WIDTH * MAZE_UNIT && 4 <= y < 4 + BG_HEIGHT * MAZE_UNIT ==>
              FromPixels(x, y).Valid() && FromPixels(x, y).dx >= 0 && FromPixels(x, y).dy >= 0
  {
    var r := FromPixels(x, y);
    assert x + CG_X_ORIGIN == MAZE_UNIT * TruncDiv(x + CG_X_ORIGIN, MAZE_UNIT) + TruncMod(x + CG_X_ORIGIN, MAZE_UNIT);
    assert y + CG_Y_ORIGIN == MAZE_UNIT * TruncDiv(y + CG_Y_ORIGIN, MAZE_UNIT) + TruncMod(y + CG_Y_ORIGIN, MAZE_UNIT);
  }

  /** Squares grow with the distance from zero. */
  lemma SquareBound(a: int, b: int)
    requires -b <= a <= b
    ensures a * a <= b * b
  {
    if a < 0 {
      assert a * a == (-a) * (-a);
    }
  }

  /** The squared tile distance from a neighbour of a tile on the board to a tile on the board. */
  lemma NeighbourDistanceBound(p: Pos, target: Pos, d: Dir)
    requires p.Valid() && target.Valid()
    ensures Distance(p, target, d) <= 29 * 29 + 37 * 37
  {
    var dc := p.column + HorizontalDelta(d) - target.column;
    var dr := p.row + VerticalDelta(d) - target.row;
    SquareBound(dc, 29);
    SquareBound(dr, 37);
  }

  /**
   * From any position on the board to any target on the board, every
   * neighbour tile is nearer than MAZE_MAX_DISTANCE, so the player's
   * capped choice is the plain nearest choice.
   */
  lemma BoardTargetsWithinCap(allowed: set<Dir>, p: Pos, target: Pos)
    requires p.Valid() && target.Valid()
    ensures BelowCap(allowed, p, target) == allowed * Headings
    ensures allowed * Headings != {} ==> NearestCapped(allowed, p, target) == Nearest(allowed, p, target)
  {
    forall d | d in allowed && d in Headings
      ensures d in BelowCap(allowed, p, target)
    {
      NeighbourDistanceBound(p, target, d);
    }
    NearestCappedCharacterised(allowed, p, target);
  }

  /** The headings the player may take towards a target: never straight back unless forced. */
  function TargetOptions(grid: CgMazeGrid, p: Pos, current: Dir, forced: bool): (r: set<Dir>)
    requires grid.Valid()
    reads grid, grid.attributes
    ensures forall d :: d in r <==> d in Headings && (d != Reverse(current) || forced) && CanPass(grid, p, d, false)
  {
    set d | d in Order && (d != Reverse(current) || forced) && CanPass(grid, p, d, false)
  }

  /**
   * The player's options are the headings open to it (one-way tiles do not
   * bind the player), less straight back unless it is forced.
   */
  lemma TargetOptionsArePassable(grid: CgMazeGrid, p: Pos, current: Dir)
    requires grid.Valid()
    ensures TargetOptions(grid, p, current, true) == Passable(grid, p, false)
    ensures TargetOptions(grid, p, current, false) == Passable(grid, p, false) - {Reverse(current)}
  {
  }

  /**
   * The player's choice towards a target: the nearest open heading (below
   * MAZE_MAX_DISTANCE), or the heading already asked for when there is none.
   */
  function ChoiceTowards(grid: CgMazeGrid, p: Pos, h: Heading, target: Pos, forced: bool): Dir
    requires grid.Valid()
    reads grid, grid.attributes
  {
    var n := NearestCapped(TargetOptions(grid, p, h.current, forced), p, target);
    if n == Dir.None then h.next else n
  }

  /**
   * On the board, the choice towards a target is the nearest open heading
   * (not straight back unless forced) whenever there is one, and the
   * heading already asked for otherwise.
   */
  lemma ChoiceTowardsSound(grid: CgMazeGrid, p: Pos, h: Heading, target: Pos, forced: bool)
    requires grid.Valid() && p.Valid() && target.Valid()
    ensures var options := TargetOptions(grid, p, h.current, forced);
      && (options != {} ==> IsNearest(options, p, target, ChoiceTowards(grid, p, h, target, forced)))
      && (options == {} ==> ChoiceTowards(grid, p, h, target, forced) == h.next)
  {
    var options := TargetOptions(grid, p, h.current, forced);
    assert options * Headings == options;
    BoardTargetsWithinCap(options, p, target);
    NearestCorrect(options, p, target);
    NearestCappedCharacterised(options, p, target);
  }

  /**
   * The player may cut a corner into a perpendicular target heading when
   * at least 6 dots past the centre of its tile and the tile diagonally
   * ahead is not a wall.
   */
  predicate CanTurn(grid: CgMazeGrid, p: Pos, current: Dir, target: Dir)
    requires grid.Valid()
    reads grid, grid.values
  {
    (Clockwise(current) == target || CounterClockwise(current) == target)
    && p.AbsoluteDelta(current) >= 6
    && grid.GetTile(p.column + HorizontalDelta(current) + HorizontalDelta(target),
                    p.row + VerticalDelta(current) + VerticalDelta(target)) != Wall
  }

  /** A corner is only ever cut between two perpendicular headings. */
  lemma CanTurnPerpendicular(grid: CgMazeGrid, p: Pos, current: Dir, target: Dir)
    requires grid.Valid() && CanTurn(grid, p, current, target)
    ensures current.IsHeading() && target.IsHeading()
    ensures HorizontalDelta(current) * HorizontalDelta(target) + VerticalDelta(current) * VerticalDelta(target) == 0
    ensures target != current && target != Reverse(current)
  {
  }

  /**
   * The cornering loop: move diagonally, along the current heading with one
   * speed and along the next heading with another, until the current
   * heading's offset is used up; then round down and finish.
   * Returns the position and whether the corner was finished.
   */
  function Corner(p: Pos, current: Dir, next: Dir, speedCurrent: int, speedNext: int): (Pos, bool)
    decreases if speedCurrent > 0 then speedCurrent else 0
  {
    if speedCurrent <= 0 then (p, false)
    else if p.AbsoluteDelta(current) > 0 then
      var (q, s) := p.Move(current, speedCurrent);
      var (q', s') := q.Move(next, speedNext);
      Corner(q', current, next, s, s')
    else (p.RoundDown(current), true)
  }

  /**
   * Cornering keeps a valid position valid and finishes exactly on the
   * centre line of the current heading's axis.
   */
  lemma {:induction false} CornerFacts(p: Pos, current: Dir, next: Dir, speedCurrent: int, speedNext: int)
    requires p.Valid() && speedNext >= 0
    ensures var c := Corner(p, current, next, speedCurrent, speedNext);
      c.0.Valid() && (c.1 ==> c.0.AbsoluteDelta(current) == 0)
    decreases if speedCurrent > 0 then speedCurrent else 0
  {
    if speedCurrent > 0 && p.AbsoluteDelta(current) > 0 {
      var (q, s) := p.Move(current, speedCurrent);
      var (q', s') := q.Move(next, speedNext);
      CornerFacts(q', current, next, s, s');
    }
  }

  /** What the player meets ahead: road until 4 dots short of the next tile, then that tile. */
  function TileAhead(grid: CgMazeGrid, p: Pos, d: Dir): (r: Tile)
    requires grid.Valid()
    reads grid, grid.values
    ensures r != Road ==> d.IsHeading() && p.AbsoluteDelta(d) >= 4
    ensures p.AbsoluteDelta(d) >= 4 ==> r == grid.GetTile(p.column + HorizontalDelta(d), p.row + VerticalDelta(d))
  {
    if p.AbsoluteDelta(d) < 4 then Road
    else grid.GetTile(p.column + HorizontalDelta(d), p.row + VerticalDelta(d))
  }

  /** The action whose speed applies when meeting a tile. */
  function EatingAction(tile: Tile): (r: Context.PlayerAction)
    ensures r == Context.PlayerAction.Walking <==> tile !in {Feed, PowerFeed, Fruit}
  {
    match tile
    case Feed => Context.PlayerAction.EatingFeed
    case PowerFeed => Context.PlayerAction.EatingPower
    case Fruit => Context.PlayerAction.EatingFruit
    case _ => Context.PlayerAction.Walking
  }

  /** The speed of a move towards a tile: slower while eating. */
  function MoveSpeed(level: Context.Level, tile: Tile, power: bool): (r: int)
    ensures 13 <= r <= 20
    ensures tile !in {Feed, PowerFeed, Fruit} ==> r == Context.PlayerSpeed(level, Context.PlayerAction.Walking, power)
  {
    Context.PlayerSpeed(level, EatingAction(tile), power)
  }

  /** The meal reported for the tile ahead, if it is something to eat. */
  function MealAhead(grid: CgMazeGrid, p: Pos, d: Dir): (r: Option<Meal>)
    requires grid.Valid()
    reads grid, grid.values
  {
    var tile := TileAhead(grid, p, d);
    if tile in {Feed, PowerFeed, Fruit} then
      Some(Meal(p.column + HorizontalDelta(d), p.row + VerticalDelta(d), tile))
    else Option.None
  }

  /**
   * A meal is only ever reported at least 4 dots into the way to the next
   * tile in the heading, for that very tile, and only for food.
   */
  lemma MealAheadFacts(grid: CgMazeGrid, p: Pos, d: Dir)
    requires grid.Valid()
    ensures MealAhead(grid, p, d).Some? ==>
              var m := MealAhead(grid, p, d).value;
              && p.AbsoluteDelta(d) >= 4 && d.IsHeading()
              && m.column == p.column + HorizontalDelta(d) && m.row == p.row + VerticalDelta(d)
              && m.tile in {Feed, PowerFeed, Fruit}
              && grid.GetTile(m.column, m.row) == m.tile
    ensures MealAhead(grid, p, d).None? <==> TileAhead(grid, p, d) !in {Feed, PowerFeed, Fruit}
  {
  }

  /**
   * The walk of move(): travel along the heading asked for; when blocked,
   * ask to stop; then commit a change of heading (a stop is never
   * committed, so the player keeps facing the wall).
   */
  function Walk(grid: CgMazeGrid, p: Pos, h: Heading, speed: int): (Pos, Heading)
    requires grid.Valid()
    reads grid, grid.attributes
  {
    var t := Travel(grid, p, h.next, speed, false);
    var h' := if t.1 then h.Set(Dir.Stop) else h;
    (t.0, if h'.IsChanging() then h'.Update() else h')
  }

  /**
   * After a walk the player faces the heading it asked for, unless it was
   * blocked: then it keeps facing the same way and asks to stop.
   */
  lemma WalkFacts(grid: CgMazeGrid, p: Pos, h: Heading, speed: int)
    requires grid.Valid() && p.Valid()
    ensures var w := Walk(grid, p, h, speed);
      && w.0.Valid()
      && (Travel(grid, p, h.next, speed, false).1 ==> w.1 == Heading(h.current, Dir.Stop))
      && (!Travel(grid, p, h.next, speed, false).1 && h.next != Dir.Stop ==> w.1 == Heading(h.next, h.next))
      && (Travel(grid, p, h.next, speed, false).1 ==> speed > 0)
      && (speed > 0 && !CanPass(grid, p, h.next, false) ==> w.0 == p.RoundDown(Dir.Stop))
  {
    TravelFacts(grid, p, h.next, speed, false);
  }

  /** What one update of the player leaves: where it is, its heading, whether it is cornering, and what it ate. */
  datatype Outcome = Outcome(position: Pos, heading: Heading, action: Action, meal: Option<Meal>)

  /** A plain walk towards heading h.next at the speed of what is ahead. */
  function WalkStep(grid: CgMazeGrid, p: Pos, h: Heading, action: Action, level: Context.Level, power: bool): Outcome
    requires grid.Valid()
    reads grid, grid.attributes, grid.values
  {
    var w := Walk(grid, p, h, MoveSpeed(level, TileAhead(grid, p, h.next), power));
    Outcome(w.0, w.1, action, MealAhead(grid, p, h.next))
  }

  /**
   * One update of the player wanting heading target: carry on cutting a
   * corner; or take target when it is open; or else commit the heading
   * asked for and start cutting a corner into target when possible; or
   * else walk on.
   */
  function PlayerStep(grid: CgMazeGrid, p: Pos, h: Heading, action: Action, target: Dir,
                      level: Context.Level, power: bool): Outcome
    requires grid.Valid()
    reads grid, grid.attributes, grid.values
  {
    if action == Turning then
      var speed := Context.PlayerSpeed(level, Context.PlayerAction.Walking, power);
      var c := Corner(p, h.current, h.next, speed, speed);
      if c.1 then Outcome(c.0, h.Update(), Idle, Option.None)
      else Outcome(c.0, h, Turning, Option.None)
    else if CanPass(grid, p, target, false) then
      WalkStep(grid, p, h.Set(target), action, level, power)
    else if CanTurn(grid, p, h.Update().current, target) then
      Outcome(p, h.Update().Set(target), Turning, Option.None)
    else
      WalkStep(grid, p, h.Update(), action, level, power)
  }

  /**
   * A walk keeps the player on the board, eats only food, and only the
   * tile ahead, and ends facing the heading it had or asked for.
   */
  lemma WalkStepFacts(grid: CgMazeGrid, p: Pos, h: Heading, action: Action, level: Context.Level, power: bool)
    requires grid.Valid() && p.Valid()
    ensures var o := WalkStep(grid, p, h, action, level, power);
      && o.position.Valid() && o.action == action
      && o.heading.current in {h.current, h.next}
      && (o.meal.Some? ==>
            && o.meal.value.tile in {Feed, PowerFeed, Fruit}
            && grid.GetTile(o.meal.value.column, o.meal.value.row) == o.meal.value.tile)
  {
    WalkFacts(grid, p, h, MoveSpeed(level, TileAhead(grid, p, h.next), power));
    MealAheadFacts(grid, p, h.next);
  }

  /**
   * An update keeps the player on the board; a corner is only begun
   * standing still, into the heading wanted, when the corner can be cut;
   * the player eats only when it walks, and only food on the tile ahead;
   * it only ever faces a heading it had, asked for, or wants; and a
   * finished corner ends on the centre line.
   */
  lemma PlayerStepFacts(grid: CgMazeGrid, p: Pos, h: Heading, action: Action, target: Dir,
                        level: Context.Level, power: bool)
    requires grid.Valid() && p.Valid()
    ensures PlayerStep(grid, p, h, action, target, level, power).position.Valid()
    ensures var o := PlayerStep(grid, p, h, action, target, level, power);
      action == Idle && o.action == Turning ==>
        o.position == p && o.meal.None? && o.heading.next == target
        && CanTurn(grid, p, o.heading.current, target)
    ensures var o := PlayerStep(grid, p, h, action, target, level, power);
      o.meal.Some? ==>
        && action == Idle && o.action == Idle
        && o.meal.value.tile in {Feed, PowerFeed, Fruit}
        && grid.GetTile(o.meal.value.column, o.meal.value.row) == o.meal.value.tile
    ensures PlayerStep(grid, p, h, action, target, level, power).heading.current in {h.current, h.next, target}
    ensures var o := PlayerStep(grid, p, h, action, target, level, power);
      action == Turning && o.action == Idle ==> o.position.AbsoluteDelta(h.current) == 0
  {
    var o := PlayerStep(grid, p, h, action, target, level, power);
    var speed := Context.PlayerSpeed(level, Context.PlayerAction.Walking, power);
    if action == Turning {
      CornerFacts(p, h.current, h.next, speed, speed);
      assert o.meal.None? && o.position == Corner(p, h.current, h.next, speed, speed).0;
    } else if CanPass(grid, p, target, false) {
      WalkStepFacts(grid, p, h.Set(target), action, level, power);
      assert o == WalkStep(grid, p, h.Set(target), action, level, power);
    } else if CanTurn(grid, p, h.Update().current, target) {
      assert o == Outcome(p, h.Update().Set(target), Turning, Option.None);
    } else {
      WalkStepFacts(grid, p, h.Update(), action, level, power);
      assert o == WalkStep(grid, p, h.Update(), action, level, power);
    }
  }

  class CgPlayer {
    const grid: CgMazeGrid
    var enabled: bool
    var position: Pos
    var heading: Heading
    var targetDirection: Dir
    var action: Action
    var timerWithPower: TimerState
    var timerNotToEat: TimerState
    /** The tile touched last, in touch operation. */
    var targetPosition: Pos

    predicate Valid()
      reads this`position, grid
    {
      grid.Valid() && position.Valid()
    }

    constructor(grid: CgMazeGrid)
      requires grid.Valid()
      ensures Valid() && this.grid == grid && !enabled
      ensures position == Placed(0, 0, 0, 0) && heading == Heading(Dir.None, Dir.None)
      ensures targetDirection == Dir.Stop && action == Idle
      ensures timerWithPower == FreshTimer && timerNotToEat == FreshTimer
    {
      this.grid := grid;
      enabled := false;
      position := Placed(0, 0, 0, 0);
      heading := Heading(Dir.None, Dir.None);
      targetDirection := Dir.Stop;
      action := Idle;
      timerWithPower := FreshTimer;
      timerNotToEat := FreshTimer;
      targetPosition := Placed(0, 0, 0, 0);
    }

    /** Back to the start of a life: disabled, at home, stopped, with both timers set and idle. */
    method Reset(timeWithPower: int, timeNotToEat: int)
      requires grid.Valid()
      modifies this`enabled, this`position, this`heading, this`timerWithPower, this`timerNotToEat,
               this`targetDirection, this`action
      ensures Valid() && !enabled && position == PLAYER_HOME && heading == StoppedHeading
      ensures timerWithPower == old(timerWithPower).Reset().Set(timeWithPower)
      ensures timerNotToEat == old(timerNotToEat).Reset().Set(timeNotToEat)
      ensures !timerWithPower.IsCounting() && timerWithPower.currentTime == timeWithPower
      ensures !timerNotToEat.IsCounting() && timerNotToEat.currentTime == timeNotToEat
      ensures targetDirection == Dir.Stop && action == Idle
    {
      enabled := false;
      position := Placed(0, 0, 0, 0);
      heading := StoppedHeading;
      timerWithPower := timerWithPower.Reset();
      timerNotToEat := timerNotToEat.Reset();
      timerWithPower := timerWithPower.Set(timeWithPower);
      timerNotToEat := timerNotToEat.Set(timeNotToEat);
      targetDirection := Dir.Stop;
      action := Idle;
      position := PLAYER_HOME;
      heading := heading.Set(Dir.Stop);
    }

    /** Enabled, and the timer for not eating starts counting. */
    method Start()
      modifies this`enabled, this`timerNotToEat
      ensures enabled && timerNotToEat == old(timerNotToEat).Start()
    {
      enabled := true;
      timerNotToEat := timerNotToEat.Start();
    }

    method Stop()
      modifies this`enabled
      ensures !enabled
    {
      enabled := false;
    }

    /** A swipe sets the heading wanted, in swipe operation only; a disabled player ignores it. */
    method HandleSwipe(mode: Context.OperationMode, d: Dir)
      modifies this`targetDirection
      ensures targetDirection == if enabled && mode == Context.Swipe then d else old(targetDirection)
    {
      if enabled && mode == Context.Swipe {
        targetDirection := d;
      }
    }

    /**
     * A touch, in touch operation only, sets the target tile and heads for
     * it at once, turning back if that is nearest; a disabled player
     * ignores it.
     */
    method HandleTouch(mode: Context.OperationMode, x: int, y: int)
      requires Valid()
      modifies this`targetPosition, this`targetDirection
      ensures !(enabled && mode == Context.Touch) ==>
                targetPosition == old(targetPosition) && targetDirection == old(targetDirection)
      ensures enabled && mode == Context.Touch ==>
                targetPosition == FromPixels(x, y)
                && targetDirection == ChoiceTowards(grid, position, heading, FromPixels(x, y), true)
    {
      if enabled && mode == Context.Touch {
        var touched := FromPixels(x, y);
        targetPosition := Placed(touched.column, touched.row, touched.dx, touched.dy);
        targetDirection := DecideDirectionByTarget(true);
      }
    }

    /**
     * canMove(to:): only a heading along which the player is centred, into
     * a neighbour that is not a wall; at the centre of a tile, every such
     * heading.
     */
    predicate CanMoveTo(d: Dir)
      requires grid.Valid()
      reads this, grid, grid.attributes
      ensures CanMoveTo(d) <==> d.IsHeading() && position.CanMove(d) && grid.GetTileAttribute(d, position) != Wall
      ensures position.IsCenter() && d.IsHeading() && grid.GetTileAttribute(d, position) != Wall ==> CanMoveTo(d)
    {
      CanPass(grid, position, d, false)
    }

    /** The scan of the four headings for the one nearest the target tile. */
    method DecideDirectionByTarget(forced: bool) returns (next: Dir)
      requires Valid()
      ensures next == ChoiceTowards(grid, position, heading, targetPosition, forced)
    {
      ghost var options := TargetOptions(grid, position, heading.current, forced);
      var current := heading.current;
      next := Dir.None;
      var minDistance := MAZE_MAX_DISTANCE;
      for i := 0 to |Order|
        invariant Scan(options, position, targetPosition, true, i, Pick(next, minDistance))
               == Scan(options, position, targetPosition, true, 0, Pick(Dir.None, MAZE_MAX_DISTANCE))
      {
        var d := Order[i];
        var open := (d != Reverse(current) || forced) && CanMoveTo(d);
        assert open <==> d in options;
        if open {
          var distance := Distance(position, targetPosition, d);
          if distance < minDistance {
            minDistance := distance;
            next := d;
          }
        }
      }
      if next == Dir.None {
        next := heading.next;
      }
    }

    /** Cut the corner at walking speed; once on the centre line, commit the new heading. */
    method Turn(level: Context.Level)
      requires Valid()
      modifies this`position, this`heading, this`action
      ensures Valid()
      ensures var speed := Context.PlayerSpeed(level, Context.PlayerAction.Walking, timerWithPower.IsCounting());
        var c := Corner(old(position), old(heading).current, old(heading).next, speed, speed);
        && position == c.0
        && (c.1 ==> action == Idle && heading == old(heading).Update())
        && (!c.1 ==> action == old(action) && heading == old(heading))
    {
      var power := timerWithPower.IsCounting();
      var speedCurrent := Context.PlayerSpeed(level, Context.PlayerAction.Walking, power);
      var speedNext := speedCurrent;
      ghost var p0, s0 := position, speedCurrent;
      CornerFacts(p0, heading.current, heading.next, s0, s0);
      while speedCurrent > 0
        invariant position.Valid() && speedNext >= 0 && heading == old(heading) && action == old(action)
        invariant Corner(position, heading.current, heading.next, speedCurrent, speedNext)
               == Corner(p0, heading.current, heading.next, s0, s0)
        decreases speedCurrent
      {
        if position.AbsoluteDelta(heading.current) > 0 {
          var q, s := position.Move(heading.current, speedCurrent).0, position.Move(heading.current, speedCurrent).1;
          position, speedNext := q.Move(heading.next, speedNext).0, q.Move(heading.next, speedNext).1;
          speedCurrent := s;
        } else {
          action := Idle;
          position := position.RoundDown(heading.current);
          heading := heading.Update();
          break;
        }
      }
    }

    /**
     * Walk at the speed of what is ahead, reporting it when it is food;
     * eating a feed or a power feed restarts the timer for not eating, a
     * power feed also the power timer.
     */
    method Move(level: Context.Level) returns (meal: Option<Meal>)
      requires Valid()
      modifies this`position, this`heading, this`timerWithPower, this`timerNotToEat
      ensures Valid()
      ensures Outcome(position, heading, action, meal)
           == old(WalkStep(grid, position, heading, action, level, timerWithPower.IsCounting()))
      ensures timerNotToEat == if meal.Some? && meal.value.tile in {Feed, PowerFeed} then old(timerNotToEat).Restart() else old(timerNotToEat)
      ensures timerWithPower == if meal.Some? && meal.value.tile == PowerFeed then old(timerWithPower).Restart() else old(timerWithPower)
    {
      var speed;
      speed, meal := Eat(level);
      WalkOn(speed);
    }

    /** The first half of move(): what is ahead, the speed for it, and the timers it restarts. */
    method Eat(level: Context.Level) returns (speed: int, meal: Option<Meal>)
      requires Valid()
      modifies this`timerWithPower, this`timerNotToEat
      ensures speed == MoveSpeed(level, TileAhead(grid, position, heading.next), old(timerWithPower).IsCounting())
      ensures meal == MealAhead(grid, position, heading.next)
      ensures timerNotToEat == if meal.Some? && meal.value.tile in {Feed, PowerFeed} then old(timerNotToEat).Restart() else old(timerNotToEat)
      ensures timerWithPower == if meal.Some? && meal.value.tile == PowerFeed then old(timerWithPower).Restart() else old(timerWithPower)
    {
      var power := timerWithPower.IsCounting();
      var next := heading.next;
      var column, row := position.column + HorizontalDelta(next), position.row + VerticalDelta(next);
      var tile := if position.AbsoluteDelta(next) < 4 then Road else grid.GetTile(column, row);
      match tile {
        case Feed =>
          speed := Context.PlayerSpeed(level, Context.PlayerAction.EatingFeed, power);
          meal := Some(Meal(column, row, Feed));
          timerNotToEat := timerNotToEat.Restart();
        case PowerFeed =>
          speed := Context.PlayerSpeed(level, Context.PlayerAction.EatingPower, power);
          meal := Some(Meal(column, row, PowerFeed));
          timerNotToEat := timerNotToEat.Restart();
          timerWithPower := timerWithPower.Restart();
        case Fruit =>
          speed := Context.PlayerSpeed(level, Context.PlayerAction.EatingFruit, power);
          meal := Some(Meal(column, row, Fruit));
        case _ =>
          speed := Context.PlayerSpeed(level, Context.PlayerAction.Walking, power);
          meal := Option.None;
      }
    }

    /**
     * The second half of move(): travel along the heading asked for, asking
     * to stop at a wall, then commit a change of heading.
     */
    method WalkOn(speed: int)
      requires Valid()
      modifies this`position, this`heading
      ensures Valid()
      ensures (position, heading) == old(Walk(grid, position, heading, speed))
    {
      var speed := speed;
      var next := heading.next;
      ghost var p0, h0, s0 := position, heading, speed;
      TravelFacts(grid, p0, next, s0, false);
      var blocked := false;
      while speed > 0
        invariant position.Valid() && heading.current == h0.current
        invariant !blocked ==> heading == h0 && Travel(grid, position, next, speed, false) == Travel(grid, p0, next, s0, false)
        invariant blocked ==> speed == 0 && heading == h0.Set(Dir.Stop)
                              && Travel(grid, p0, next, s0, false) == (position, true)
        decreases speed
      {
        if CanMoveTo(heading.next) {
          position, speed := position.Move(heading.next, speed).0, position.Move(heading.next, speed).1;
        } else {
          heading := heading.Set(Dir.Stop);
          assert position.Move(Dir.Stop, 0).0 == position.RoundDown(Dir.Stop);
          position, speed := position.Move(Dir.Stop, 0).0, position.Move(Dir.Stop, 0).1;
          blocked := true;
        }
      }
      if heading.IsChanging() {
        heading := heading.Update();
      }
    }

    /**
     * One update: in touch operation, head for the target tile first; then
     * take one step of PlayerStep towards the heading wanted.
     */
    method Update(level: Context.Level, mode: Context.OperationMode) returns (meal: Option<Meal>)
      requires Valid()
      modifies this`position, this`heading, this`timerWithPower, this`timerNotToEat, this`targetDirection, this`action
      ensures Valid()
      ensures targetDirection == if mode == Context.Touch then old(ChoiceTowards(grid, position, heading, targetPosition, false))
                                 else old(targetDirection)
      ensures var t := targetDirection;
        Outcome(position, heading, action, meal)
          == old(PlayerStep(grid, position, heading, action, t, level, timerWithPower.IsCounting()))
      ensures timerNotToEat == if meal.Some? && meal.value.tile in {Feed, PowerFeed} then old(timerNotToEat).Restart() else old(timerNotToEat)
      ensures timerWithPower == if meal.Some? && meal.value.tile == PowerFeed then old(timerWithPower).Restart() else old(timerWithPower)
    {
      if mode == Context.Touch {
        targetDirection := DecideDirectionByTarget(false);
      }
      meal := Proceed(level);
    }

    /** The part of update() after the touch target has been chosen. */
    method Proceed(level: Context.Level) returns (meal: Option<Meal>)
      requires Valid()
      modifies this`position, this`heading, this`timerWithPower, this`timerNotToEat, this`action
      ensures Valid()
      ensures Outcome(position, heading, action, meal)
           == old(PlayerStep(grid, position, heading, action, targetDirection, level, timerWithPower.IsCounting()))
      ensures timerNotToEat == if meal.Some? && meal.value.tile in {Feed, PowerFeed} then old(timerNotToEat).Restart() else old(timerNotToEat)
      ensures timerWithPower == if meal.Some? && meal.value.tile == PowerFeed then old(timerWithPower).Restart() else old(timerWithPower)
    {
      if action == Turning {
        Turn(level);
        return Option.None;
      }
      if CanMoveTo(targetDirection) {
        heading := heading.Set(targetDirection);
      } else {
        heading := heading.Update();
        if CanTurn(grid, position, heading.current, targetDirection) {
          action := Turning;
          heading := heading.Set(targetDirection);
          return Option.None;
        }
      }
      meal := Move(level);
    }

    /**
     * One update message: an enabled player updates, then its power timer
     * and its not-eating timer count down; a disabled one ignores it.
     */
    method Frame(interval: int, level: Context.Level, mode: Context.OperationMode) returns (meal: Option<Meal>)
      requires Valid()
      modifies this`position, this`heading, this`timerWithPower, this`timerNotToEat, this`targetDirection, this`action
      ensures Valid()
      ensures !enabled ==> meal == Option.None && position == old(position) && heading == old(heading)
                           && timerWithPower == old(timerWithPower) && timerNotToEat == old(timerNotToEat)
                           && targetDirection == old(targetDirection) && action == old(action)
      ensures enabled ==>
                targetDirection == if mode == Context.Touch then old(ChoiceTowards(grid, position, heading, targetPosition, false))
                                   else old(targetDirection)
      ensures enabled ==>
                var t := targetDirection;
                Outcome(position, heading, action, meal)
                  == old(PlayerStep(grid, position, heading, action, t, level, timerWithPower.IsCounting()))
      ensures enabled ==>
                timerNotToEat == (if meal.Some? && meal.value.tile in {Feed, PowerFeed} then old(timerNotToEat).Restart() else old(timerNotToEat)).Update(interval)
      ensures enabled ==>
                timerWithPower == (if meal.Some? && meal.value.tile == PowerFeed then old(timerWithPower).Restart() else old(timerWithPower)).Update(interval)
    {
      meal := Option.None;
      if enabled {
        meal := Update(level, mode);
        timerWithPower := timerWithPower.Update(interval);
        timerNotToEat := timerNotToEat.Update(interval);
      }
    }
  }
}
