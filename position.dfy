/**
 * The position of an actor (CgPosition): a tile (column, row), a dot offset
 * (dx, dy) inside the tile, a sub-dot fraction (dxf, dyf) in sixteenths of a
 * dot, and the number of dots moved since the last reset of amountMoved.
 */
module Position {
  import opened Direction

  /** Dots per tile. */
  const MAZE_UNIT: int := 8
  const HALF_MAZE_UNIT: int := 4
  /** Sub-dot units per dot; also the largest amount one call to Move consumes. */
  const SPEED_UNIT: int := 16
  /** The maze is BG_WIDTH columns by BG_HEIGHT rows of tiles. */
  const BG_WIDTH: int := 28
  const BG_HEIGHT: int := 36
  const CG_X_ORIGIN: int := -4
  const CG_Y_ORIGIN: int := -4

  /** Length in dots of a horizontal and a vertical trip through the tunnel. */
  const WIDTH_IN_DOTS: int := BG_WIDTH * MAZE_UNIT
  const HEIGHT_IN_DOTS: int := BG_HEIGHT * MAZE_UNIT

  datatype Pos = Pos(column: int, row: int, dx: int, dy: int, dxf: int, dyf: int, amountMoved: int) {

    /** What every moving actor's position keeps: a tile of the grid and offsets below one step. */
    predicate Valid() {
      0 <= column < BG_WIDTH && 0 <= row < BG_HEIGHT
      && -MAZE_UNIT < dx < MAZE_UNIT && -MAZE_UNIT < dy < MAZE_UNIT
      && -SPEED_UNIT < dxf < SPEED_UNIT && -SPEED_UNIT < dyf < SPEED_UNIT
    }

    /** Pixel coordinates of the actor. */
    function X(): int {
      column * MAZE_UNIT + dx - CG_X_ORIGIN
    }

    function Y(): int {
      row * MAZE_UNIT + dy - CG_Y_ORIGIN
    }

    /** Horizontal and vertical coordinates in sub-dot units. */
    function FineX(): int {
      X() * SPEED_UNIT + dxf
    }

    function FineY(): int {
      Y() * SPEED_UNIT + dyf
    }

    predicate IsCenter() {
      dx == 0 && dy == 0
    }

    /** Moving along an axis is only possible when centred on the other axis. */
    predicate CanMove(d: Dir) {
      ((d == Left || d == Right) && dy == 0) || ((d == Up || d == Down) && dx == 0)
    }

    /** How far the actor is past the centre of its tile, measured in direction d. */
    function AbsoluteDelta(d: Dir): (r: int)
      ensures r == Max0(HorizontalDelta(d) * dx + VerticalDelta(d) * dy)
      ensures Valid() ==> r < MAZE_UNIT
    {
      match d
      case Right => if dx > 0 then dx else 0
      case Left => if dx < 0 then -dx else 0
      case Up => if dy > 0 then dy else 0
      case Down => if dy < 0 then -dy else 0
      case _ => 0
    }

    /** Drop the sub-dot fraction on the axis of d (both axes for Stop). */
    function RoundDown(d: Dir): (r: Pos)
      ensures r.X() == X() && r.Y() == Y() && r.amountMoved == amountMoved
      ensures (d == Left || d == Right || d == Stop) ==> r.dxf == 0
      ensures (d == Up || d == Down || d == Stop) ==> r.dyf == 0
      ensures (d == Up || d == Down) ==> r.dxf == dxf
      ensures (d == Left || d == Right) ==> r.dyf == dyf
      ensures d == None ==> r == this
      ensures Valid() ==> r.Valid()
    {
      match d
      case Right => this.(dxf := 0)
      case Left => this.(dxf := 0)
      case Up => this.(dyf := 0)
      case Down => this.(dyf := 0)
      case Stop => this.(dxf := 0, dyf := 0)
      case None => this
    }

    function IncrementHorizontal(): Pos {
      if dx + 1 >= MAZE_UNIT then
        this.(column := if column + 1 >= BG_WIDTH then 0 else column + 1, dx := 0)
      else
        this.(dx := dx + 1)
    }

    function DecrementHorizontal(): Pos {
      if dx - 1 <= -MAZE_UNIT then
        this.(column := if column - 1 < 0 then BG_WIDTH - 1 else column - 1, dx := 0)
      else
        this.(dx := dx - 1)
    }

    function IncrementVertical(): Pos {
      if dy + 1 >= MAZE_UNIT then
        this.(row := if row + 1 >= BG_HEIGHT then 0 else row + 1, dy := 0)
      else
        this.(dy := dy + 1)
    }

    function DecrementVertical(): Pos {
      if dy - 1 <= -MAZE_UNIT then
        this.(row := if row - 1 < 0 then BG_HEIGHT - 1 else row - 1, dy := 0)
      else
        this.(dy := dy - 1)
    }

    /**
     * Spend up to one SPEED_UNIT of speed moving in direction d, stepping one
     * dot when the fraction overflows; returns the new position and the
     * speed left over. Stop and None clear both fractions.
     */
    function Move(d: Dir, speed: int): (r: (Pos, int))
      ensures 0 <= r.1
      ensures speed > 0 ==> r.1 < speed
      ensures r.1 == Max0(speed - SPEED_UNIT)
      ensures !d.IsHeading() ==> r.0 == this.(dxf := 0, dyf := 0)
      ensures (d == Left || d == Right) ==> r.0.row == row && r.0.dy == dy && r.0.dyf == dyf
      ensures (d == Up || d == Down) ==> r.0.column == column && r.0.dx == dx && r.0.dxf == dxf
      ensures amountMoved <= r.0.amountMoved <= amountMoved + 1
      ensures Valid() && speed >= 0 ==> r.0.Valid()
    {
      var amount := if speed >= SPEED_UNIT then SPEED_UNIT else speed;
      var remaining := if speed >= SPEED_UNIT then speed - SPEED_UNIT else 0;
      var p :=
        match d
        case Left =>
          if dxf - amount <= -SPEED_UNIT then
            this.(dxf := dxf - amount + SPEED_UNIT).DecrementHorizontal().(amountMoved := amountMoved + 1)
          else this.(dxf := dxf - amount)
        case Right =>
          if dxf + amount >= SPEED_UNIT then
            this.(dxf := dxf + amount - SPEED_UNIT).IncrementHorizontal().(amountMoved := amountMoved + 1)
          else this.(dxf := dxf + amount)
        case Down =>
          if dyf - amount <= -SPEED_UNIT then
            this.(dyf := dyf - amount + SPEED_UNIT).DecrementVertical().(amountMoved := amountMoved + 1)
          else this.(dyf := dyf - amount)
        case Up =>
          if dyf + amount >= SPEED_UNIT then
            this.(dyf := dyf + amount - SPEED_UNIT).IncrementVertical().(amountMoved := amountMoved + 1)
          else this.(dyf := dyf + amount)
        case _ => this.(dxf := 0, dyf := 0);
      (p, remaining)
    }
  }

  function Max0(v: int): int {
    if v > 0 then v else 0
  }

  /** CgPosition.set: a tile and dot offset, with the fractions and the move count cleared. */
  function Placed(column: int, row: int, dx: int, dy: int): (r: Pos)
    ensures r.X() == column * MAZE_UNIT + dx + HALF_MAZE_UNIT
    ensures r.Y() == row * MAZE_UNIT + dy + HALF_MAZE_UNIT
    ensures r.dxf == 0 && r.dyf == 0 && r.amountMoved == 0
  {
    Pos(column, row, dx, dy, 0, 0, 0)
  }

  /** The amount of speed one call to Move turns into movement. */
  function Consumed(speed: int): int {
    if speed >= SPEED_UNIT then SPEED_UNIT else speed
  }

  /**
   * A horizontal move shifts the sub-dot coordinate by exactly the amount
   * consumed, towards d, modulo one trip through the tunnel.
   */
  lemma MoveAdvancesFineX(p: Pos, d: Dir, speed: int)
    requires p.Valid() && (d == Left || d == Right)
    ensures (p.Move(d, speed).0.FineX() - p.FineX() - HorizontalDelta(d) * Consumed(speed))
            % (WIDTH_IN_DOTS * SPEED_UNIT) == 0
  {
  }

  /** The vertical counterpart of MoveAdvancesFineX. */
  lemma MoveAdvancesFineY(p: Pos, d: Dir, speed: int)
    requires p.Valid() && (d == Up || d == Down)
    ensures (p.Move(d, speed).0.FineY() - p.FineY() - VerticalDelta(d) * Consumed(speed))
            % (HEIGHT_IN_DOTS * SPEED_UNIT) == 0
  {
  }

  /** Leaving the last column to the right enters column 0; leaving column 0 to the left enters the last. */
  lemma HorizontalTunnel(p: Pos, speed: int)
    requires p.Valid() && 0 <= speed
    ensures p.column == BG_WIDTH - 1 && p.dx == MAZE_UNIT - 1 && p.dxf + Consumed(speed) >= SPEED_UNIT
            ==> p.Move(Right, speed).0.column == 0 && p.Move(Right, speed).0.dx == 0
    ensures p.column == 0 && p.dx == 1 - MAZE_UNIT && p.dxf - Consumed(speed) <= -SPEED_UNIT
            ==> p.Move(Left, speed).0.column == BG_WIDTH - 1 && p.Move(Left, speed).0.dx == 0
  {
  }

  /** Rows wrap the same way. */
  lemma VerticalTunnel(p: Pos, speed: int)
    requires p.Valid() && 0 <= speed
    ensures p.row == BG_HEIGHT - 1 && p.dy == MAZE_UNIT - 1 && p.dyf + Consumed(speed) >= SPEED_UNIT
            ==> p.Move(Up, speed).0.row == 0 && p.Move(Up, speed).0.dy == 0
    ensures p.row == 0 && p.dy == 1 - MAZE_UNIT && p.dyf - Consumed(speed) <= -SPEED_UNIT
            ==> p.Move(Down, speed).0.row == BG_HEIGHT - 1 && p.Move(Down, speed).0.dy == 0
  {
  }

  /**
   * Within one SPEED_UNIT, moving a then b is the same as moving a + b at
   * once: at most one dot is stepped either way.
   */
  lemma MoveSplits(p: Pos, d: Dir, a: int, b: int)
    requires p.Valid() && d.IsHeading()
    requires 0 <= a && 0 <= b && a + b <= SPEED_UNIT
    ensures p.Move(d, a).0.Move(d, b).0 == p.Move(d, a + b).0
  {
  }

  /** Moving along an axis keeps the actor aligned for further moves on that axis. */
  lemma MoveKeepsAlignment(p: Pos, d: Dir, speed: int)
    requires p.CanMove(d)
    ensures p.Move(d, speed).0.CanMove(d)
  {
  }

  /** At the centre of a tile every heading is aligned, and no other direction ever is. */
  lemma CenterAligned(p: Pos, d: Dir)
    ensures p.IsCenter() && d.IsHeading() ==> p.CanMove(d)
    ensures p.CanMove(d) ==> d.IsHeading()
  {
  }

  /** Mutable position, updated in place as the program does. */
  class CgPosition {
    var column: int
    var row: int
    var dx: int
    var dy: int
    var dxf: int
    var dyf: int
    var amountMoved: int

    function Value(): Pos
      reads this
    {
      Pos(column, row, dx, dy, dxf, dyf, amountMoved)
    }

    constructor(column: int, row: int)
      ensures Value() == Placed(column, row, 0, 0)
    {
      this.column := column;
      this.row := row;
      dx := 0;
      dy := 0;
      dxf := 0;
      dyf := 0;
      amountMoved := 0;
    }

    method Set(column: int, row: int, dx: int, dy: int)
      modifies this
      ensures Value() == Placed(column, row, dx, dy)
    {
      this.column := column;
      this.row := row;
      this.dx := dx;
      this.dy := dy;
      dxf := 0;
      dyf := 0;
      amountMoved := 0;
    }

    /** Copy another position's tile and offset (not its fractions or move count). */
    method SetFrom(p: CgPosition)
      modifies this
      ensures Value() == Placed(old(p.column), old(p.row), old(p.dx), old(p.dy))
    {
      Set(p.column, p.row, p.dx, p.dy);
    }

    method Move(d: Dir, speed: int) returns (remaining: int)
      modifies this
      ensures (Value(), remaining) == old(Value()).Move(d, speed)
    {
      var amount: int;
      if speed >= SPEED_UNIT {
        amount := SPEED_UNIT;
        remaining := speed - SPEED_UNIT;
      } else {
        amount := speed;
        remaining := 0;
      }
      match d
      case Left =>
        dxf := dxf - amount;
        if dxf <= -SPEED_UNIT {
          dxf := dxf + SPEED_UNIT;
          DecrementHorizontal();
          amountMoved := amountMoved + 1;
        }
      case Right =>
        dxf := dxf + amount;
        if dxf >= SPEED_UNIT {
          dxf := dxf - SPEED_UNIT;
          IncrementHorizontal();
          amountMoved := amountMoved + 1;
        }
      case Down =>
        dyf := dyf - amount;
        if dyf <= -SPEED_UNIT {
          dyf := dyf + SPEED_UNIT;
          DecrementVertical();
          amountMoved := amountMoved + 1;
        }
      case Up =>
        dyf := dyf + amount;
        if dyf >= SPEED_UNIT {
          dyf := dyf - SPEED_UNIT;
          IncrementVertical();
          amountMoved := amountMoved + 1;
        }
      case _ =>
        dxf := 0;
        dyf := 0;
    }

    method IncrementHorizontal()
      modifies this
      ensures Value() == old(Value()).IncrementHorizontal()
    {
      dx := dx + 1;
      if dx >= MAZE_UNIT {
        column := column + 1;
        dx := 0;
        if column >= BG_WIDTH {
          column := 0;
        }
      }
    }

    method DecrementHorizontal()
      modifies this
      ensures Value() == old(Value()).DecrementHorizontal()
    {
      dx := dx - 1;
      if dx <= -MAZE_UNIT {
        column := column - 1;
        dx := 0;
        if column < 0 {
          column := BG_WIDTH - 1;
        }
      }
    }

    method IncrementVertical()
      modifies this
      ensures Value() == old(Value()).IncrementVertical()
    {
      dy := dy + 1;
      if dy >= MAZE_UNIT {
        row := row + 1;
        dy := 0;
        if row >= BG_HEIGHT {
          row := 0;
        }
      }
    }

    method DecrementVertical()
      modifies this
      ensures Value() == old(Value()).DecrementVertical()
    {
      dy := dy - 1;
      if dy <= -MAZE_UNIT {
        row := row - 1;
        dy := 0;
        if row < 0 {
          row := BG_HEIGHT - 1;
        }
      }
    }

    method RoundDown(d: Dir)
      modifies this
      ensures Value() == old(Value()).RoundDown(d)
    {
      match d
      case Right => dxf := 0;
      case Left => dxf := 0;
      case Up => dyf := 0;
      case Down => dyf := 0;
      case Stop => dxf := 0; dyf := 0;
      case None =>
    }

    predicate IsCenter()
      reads this
    {
      dx == 0 && dy == 0
    }
  }
}
