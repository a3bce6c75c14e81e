/**
 * How actors find their way through the maze: which headings are passable
 * from a position, the step-by-step travel loop every actor runs, the
 * direction towards a target, the nearest-neighbour choice of direction
 * (ghosts chasing a target and the player under touch control) and the
 * clockwise search a frightened ghost makes from a random heading.
 */
module Steering {
  import opened Direction
  import opened Position
  import opened Grid

  /** The largest squared tile distance the choice by target expects (36*36 + 44*44). */
  const MAZE_MAX_DISTANCE: int := 36 * 36 + 44 * 44

  /** The order in which the four headings are tried. */
  const Order: seq<Dir> := [Up, Down, Left, Right]

  const Headings: set<Dir> := {Up, Down, Left, Right}

  /**
   * An actor at p can head d: it is aligned for d and the tile it meets is
   * not a wall; with oneWay, a one-way tile cannot be entered upwards from
   * the centre of a tile.
   */
  predicate CanPass(grid: CgMazeGrid, p: Pos, d: Dir, oneWay: bool)
    requires grid.Valid()
    reads grid, grid.attributes
  {
    p.CanMove(d)
    && grid.GetTileAttribute(d, p) != Wall
    && !(oneWay && grid.GetTileAttribute(d, p) == Oneway && d == Up && p.IsCenter())
  }

  /** Only a heading is ever passable, and a one-way rule only ever forbids more. */
  lemma CanPassFacts(grid: CgMazeGrid, p: Pos, d: Dir)
    requires grid.Valid()
    ensures CanPass(grid, p, d, false) || CanPass(grid, p, d, true) ==> d.IsHeading()
    ensures CanPass(grid, p, d, true) ==> CanPass(grid, p, d, false)
    ensures d != Up ==> (CanPass(grid, p, d, true) <==> CanPass(grid, p, d, false))
  {
  }

  /** The passable headings from p, in a set. */
  function Passable(grid: CgMazeGrid, p: Pos, oneWay: bool): (r: set<Dir>)
    requires grid.Valid()
    reads grid, grid.attributes
    ensures r <= Headings
    ensures forall d :: d in r <==> d in Headings && CanPass(grid, p, d, oneWay)
  {
    set d | d in Order && CanPass(grid, p, d, oneWay)
  }

  /** The one-way rule only ever closes Up: it keeps every other passable heading. */
  lemma PassableOneWayIncluded(grid: CgMazeGrid, p: Pos)
    requires grid.Valid()
    ensures Passable(grid, p, true) <= Passable(grid, p, false)
    ensures Passable(grid, p, false) - Passable(grid, p, true) <= {Up}
  {
    forall d | d in Headings
      ensures CanPass(grid, p, d, true) ==> CanPass(grid, p, d, false)
      ensures d != Up ==> (CanPass(grid, p, d, true) <==> CanPass(grid, p, d, false))
    {
      CanPassFacts(grid, p, d);
    }
  }

  /**
   * The travel loop: spend the speed one SPEED_UNIT at a time heading d
   * while d stays passable; when it is not, drop the fractions and stop.
   * Returns the new position and whether the actor was blocked.
   */
  function Travel(grid: CgMazeGrid, p: Pos, d: Dir, speed: int, oneWay: bool): (r: (Pos, bool))
    requires grid.Valid()
    reads grid, grid.attributes
    decreases if speed > 0 then speed else 0
  {
    if speed <= 0 then (p, false)
    else if CanPass(grid, p, d, oneWay) then
      var (q, s) := p.Move(d, speed);
      Travel(grid, q, d, s, oneWay)
    else (p.RoundDown(Stop), true)
  }

  /**
   * Travelling keeps a valid position valid, moves only along d's axis,
   * steps at most one dot per SPEED_UNIT of speed, and an actor that cannot
   * head d does not move at all.
   */
  lemma {:induction false} TravelFacts(grid: CgMazeGrid, p: Pos, d: Dir, speed: int, oneWay: bool)
    requires grid.Valid() && p.Valid()
    ensures Travel(grid, p, d, speed, oneWay).0.Valid()
    ensures (d == Left || d == Right) ==> Travel(grid, p, d, speed, oneWay).0.row == p.row
                                          && Travel(grid, p, d, speed, oneWay).0.dy == p.dy
    ensures (d == Up || d == Down) ==> Travel(grid, p, d, speed, oneWay).0.column == p.column
                                       && Travel(grid, p, d, speed, oneWay).0.dx == p.dx
    ensures p.amountMoved <= Travel(grid, p, d, speed, oneWay).0.amountMoved
              <= p.amountMoved + Steps(speed)
    ensures speed > 0 && !CanPass(grid, p, d, oneWay) ==>
              Travel(grid, p, d, speed, oneWay) == (p.RoundDown(Stop), true)
    ensures Travel(grid, p, d, speed, oneWay).1 ==> speed > 0
    decreases if speed > 0 then speed else 0
  {
    if speed > 0 && CanPass(grid, p, d, oneWay) {
      var (q, s) := p.Move(d, speed);
      TravelFacts(grid, q, d, s, oneWay);
      assert Steps(speed) == 1 + Steps(s) || s == 0;
    }
  }

  /** The number of Move calls a speed is spent in. */
  function Steps(speed: int): (r: nat)
    ensures speed > 0 ==> r >= 1
  {
    if speed <= 0 then 0 else (speed + SPEED_UNIT - 1) / SPEED_UNIT
  }

  datatype Selection = All | Horizontal | Vertical

  /**
   * The heading from p towards target in pixels: along the axis of the
   * larger offset for All (vertical on a tie), and along one axis only
   * otherwise; Stop when there is no offset to close.
   */
  function TargetDirection(p: Pos, target: Pos, selected: Selection): (r: Dir)
    ensures var dx, dy := target.X() - p.X(), target.Y() - p.Y();
      && (r == Stop <==> match selected
                         case All => dx == 0 && dy == 0
                         case Horizontal => dx == 0
                         case Vertical => dy == 0)
      && (r != Stop ==> r.IsHeading() && HorizontalDelta(r) * dx + VerticalDelta(r) * dy > 0)
      && (selected == Horizontal ==> VerticalDelta(r) == 0)
      && (selected == Vertical ==> HorizontalDelta(r) == 0)
      && (selected == All ==> (HorizontalDelta(r) * dx + VerticalDelta(r) * dy >= Abs(dx)
                               && HorizontalDelta(r) * dx + VerticalDelta(r) * dy >= Abs(dy)))
  {
    var dx := target.X() - p.X();
    var dy := target.Y() - p.Y();
    match selected
    case All =>
      if dx != 0 || dy != 0 then
        if Abs(dx) > Abs(dy) then (if dx > 0 then Right else Left)
        else (if dy > 0 then Up else Down)
      else Stop
    case Horizontal => if dx < 0 then Left else if dx > 0 then Right else Stop
    case Vertical => if dy < 0 then Down else if dy > 0 then Up else Stop
  }

  function Abs(v: int): int {
    if v < 0 then -v else v
  }

  /**
   * Squared tile distance from the neighbour of p in heading d to the target
   * tile: `deltaColumn * deltaColumn + deltaRow * deltaRow` on whole tiles,
   * so no division is involved. It is zero exactly on the target tile.
   */
  function Distance(p: Pos, target: Pos, d: Dir): (r: int)
    ensures r >= 0
    ensures r == 0 <==> p.column + HorizontalDelta(d) == target.column && p.row + VerticalDelta(d) == target.row
  {
    var dc := p.column + HorizontalDelta(d) - target.column;
    var dr := p.row + VerticalDelta(d) - target.row;
    dc * dc + dr * dr
  }

  /** The choice so far of the scan over Order, and its distance. */
  datatype Pick = Pick(dir: Dir, min: int)

  /**
   * The scan over Order from index i: an allowed heading replaces the pick
   * when it is strictly nearer, or, when capped is false, when nothing has
   * been picked yet.
   */
  function Scan(allowed: set<Dir>, p: Pos, target: Pos, capped: bool, i: nat, acc: Pick): Pick
    requires i <= |Order|
    decreases |Order| - i
  {
    if i == |Order| then acc
    else
      var d := Order[i];
      var dist := Distance(p, target, d);
      var acc' := if d in allowed && (dist < acc.min || (!capped && acc.dir == Dir.None)) then Pick(d, dist) else acc;
      Scan(allowed, p, target, capped, i + 1, acc')
  }

  /**
   * The nearest allowed heading, as written: the distances are compared
   * starting from MAZE_MAX_DISTANCE, so no heading at that distance or
   * more can be picked; None when nothing is picked.
   */
  function NearestCapped(allowed: set<Dir>, p: Pos, target: Pos): Dir {
    Scan(allowed, p, target, true, 0, Pick(Dir.None, MAZE_MAX_DISTANCE)).dir
  }

  /** The nearest allowed heading, with no cap on the distance; None only when nothing is allowed. */
  function Nearest(allowed: set<Dir>, p: Pos, target: Pos): Dir {
    Scan(allowed, p, target, false, 0, Pick(Dir.None, MAZE_MAX_DISTANCE)).dir
  }

  /** The position of a heading in Order. */
  function Rank(d: Dir): int {
    match d
    case Up => 0
    case Down => 1
    case Left => 2
    case Right => 3
    case _ => 4
  }

  /** d is allowed, no allowed heading is nearer, and every earlier one in Order is farther. */
  predicate IsNearest(allowed: set<Dir>, p: Pos, target: Pos, d: Dir) {
    d in allowed && d in Headings
    && forall e :: e in allowed && e in Headings ==>
         Distance(p, target, d) <= Distance(p, target, e)
         && (Rank(e) < Rank(d) ==> Distance(p, target, d) < Distance(p, target, e))
  }

  /** There is at most one nearest heading. */
  lemma NearestUnique(allowed: set<Dir>, p: Pos, target: Pos, d: Dir, e: Dir)
    requires IsNearest(allowed, p, target, d) && IsNearest(allowed, p, target, e)
    ensures d == e
  {
  }

  /** What the uncapped scan keeps after the first i headings of Order. */
  predicate ScanInvariant(allowed: set<Dir>, p: Pos, target: Pos, i: nat, acc: Pick)
    requires i <= |Order|
  {
    && (acc.dir == Dir.None <==> forall k :: 0 <= k < i ==> Order[k] !in allowed)
    && (acc.dir != Dir.None ==>
          acc.dir in allowed && acc.dir in Headings && Rank(acc.dir) < i && acc.min == Distance(p, target, acc.dir)
          && forall k :: 0 <= k < i && Order[k] in allowed ==>
               acc.min <= Distance(p, target, Order[k]) && (k < Rank(acc.dir) ==> acc.min < Distance(p, target, Order[k])))
  }

  lemma {:induction false} ScanCorrect(allowed: set<Dir>, p: Pos, target: Pos, i: nat, acc: Pick)
    requires i <= |Order| && ScanInvariant(allowed, p, target, i, acc)
    ensures ScanInvariant(allowed, p, target, |Order|, Scan(allowed, p, target, false, i, acc))
    decreases |Order| - i
  {
    if i < |Order| {
      var d := Order[i];
      var dist := Distance(p, target, d);
      var acc' := if d in allowed && (dist < acc.min || acc.dir == Dir.None) then Pick(d, dist) else acc;
      assert Rank(d) == i;
      ScanCorrect(allowed, p, target, i + 1, acc');
    }
  }

  /** Order lists exactly the four headings, each at its rank. */
  lemma OrderFacts()
    ensures forall e :: e in Headings ==> 0 <= Rank(e) < |Order| && Order[Rank(e)] == e
    ensures forall k :: 0 <= k < |Order| ==> Order[k] in Headings && Rank(Order[k]) == k
  {
  }

  /**
   * The uncapped choice is the nearest allowed heading, first in Order
   * among equals, and None exactly when no heading is allowed.
   */
  lemma NearestCorrect(allowed: set<Dir>, p: Pos, target: Pos)
    ensures Nearest(allowed, p, target) == Dir.None <==> allowed * Headings == {}
    ensures Nearest(allowed, p, target) != Dir.None ==> IsNearest(allowed, p, target, Nearest(allowed, p, target))
  {
    ScanCorrect(allowed, p, target, 0, Pick(Dir.None, MAZE_MAX_DISTANCE));
    OrderFacts();
    var r := Nearest(allowed, p, target);
    if allowed * Headings != {} {
      var e :| e in allowed * Headings;
      assert Order[Rank(e)] in allowed;
    } else {
      forall k | 0 <= k < |Order| ensures Order[k] !in allowed {
        assert Order[k] in Headings;
        assert Order[k] !in allowed * Headings;
      }
    }
    if r != Dir.None {
      forall e | e in allowed && e in Headings
        ensures Distance(p, target, r) <= Distance(p, target, e)
        ensures Rank(e) < Rank(r) ==> Distance(p, target, r) < Distance(p, target, e)
      {
        assert Order[Rank(e)] == e;
      }
    }
  }

  /** The headings allowed and nearer than MAZE_MAX_DISTANCE. */
  function BelowCap(allowed: set<Dir>, p: Pos, target: Pos): set<Dir> {
    set d | d in allowed && d in Headings && Distance(p, target, d) < MAZE_MAX_DISTANCE
  }

  lemma {:induction false} ScanCappedIsFiltered(allowed: set<Dir>, p: Pos, target: Pos, i: nat, capped: Pick, free: Pick)
    requires i <= |Order|
    requires (free.dir == Dir.None && capped == Pick(Dir.None, MAZE_MAX_DISTANCE))
             || (free == capped && free.dir != Dir.None && free.min < MAZE_MAX_DISTANCE)
    ensures Scan(allowed, p, target, true, i, capped).dir
         == Scan(BelowCap(allowed, p, target), p, target, false, i, free).dir
    decreases |Order| - i
  {
    if i < |Order| {
      var d := Order[i];
      var dist := Distance(p, target, d);
      var c' := if d in allowed && dist < capped.min then Pick(d, dist) else capped;
      var f' := if d in BelowCap(allowed, p, target) && (dist < free.min || free.dir == Dir.None) then Pick(d, dist) else free;
      ScanCappedIsFiltered(allowed, p, target, i + 1, c', f');
    }
  }

  /**
   * As written, the choice ignores every heading at MAZE_MAX_DISTANCE or
   * more: it is the nearest allowed heading when one is nearer than that,
   * and None otherwise, however many headings are allowed.
   */
  lemma NearestCappedCharacterised(allowed: set<Dir>, p: Pos, target: Pos)
    ensures NearestCapped(allowed, p, target) == Nearest(BelowCap(allowed, p, target), p, target)
    ensures NearestCapped(allowed, p, target) == Dir.None <==> BelowCap(allowed, p, target) == {}
    ensures BelowCap(allowed, p, target) != {} ==> NearestCapped(allowed, p, target) == Nearest(allowed, p, target)
  {
    ScanCappedIsFiltered(allowed, p, target, 0, Pick(Dir.None, MAZE_MAX_DISTANCE), Pick(Dir.None, MAZE_MAX_DISTANCE));
    NearestCorrect(BelowCap(allowed, p, target), p, target);
    NearestCorrect(allowed, p, target);
    var b := BelowCap(allowed, p, target);
    if b != {} {
      var n := Nearest(allowed, p, target);
      var m := Nearest(b, p, target);
      var e :| e in b;
      assert e in allowed * Headings;
      assert Distance(p, target, n) <= Distance(p, target, e);
      assert n in b;
      assert IsNearest(allowed, p, target, m) by {
        forall f | f in allowed && f in Headings
          ensures Distance(p, target, m) <= Distance(p, target, f)
          ensures Rank(f) < Rank(m) ==> Distance(p, target, m) < Distance(p, target, f)
        {
          if f !in b {
            assert Distance(p, target, m) < MAZE_MAX_DISTANCE <= Distance(p, target, f);
          }
        }
      }
      NearestUnique(allowed, p, target, m, n);
    }
  }

  /**
   * A finding in the program as written: a ghost at the centre of tile
   * (1, 3) heading Left, with every neighbour allowed and its target at
   * (51, 59), reverses although three headings are open, because every
   * distance exceeds MAZE_MAX_DISTANCE. Inky's chase target, twice the
   * offset from Blinky to the player, lies that far when the player is at
   * (26, 31) and Blinky at (1, 3).
   */
  lemma FarTargetForcesReversal(p: Pos, t: Pos)
    requires p == Placed(1, 3, 0, 0) && t == Placed(51, 59, 0, 0)
    ensures NearestCapped({Up, Down, Left}, p, t) == Dir.None
    ensures Nearest({Up, Down, Left}, p, t) == Up
  {
    var allowed := {Up, Down, Left};
    assert Distance(p, t, Up) == 5525 && Distance(p, t, Down) == 5749 && Distance(p, t, Left) == 5737;
    NearestCappedCharacterised(allowed, p, t);
    assert BelowCap(allowed, p, t) == {} by {
      forall d | d in allowed ensures Distance(p, t, d) >= MAZE_MAX_DISTANCE {
      }
    }
    NearestCorrect(allowed, p, t);
    assert IsNearest(allowed, p, t, Up);
    NearestUnique(allowed, p, t, Up, Nearest(allowed, p, t));
  }

  /** d turned clockwise k times. */
  function Turned(d: Dir, k: nat): Dir
    decreases k
  {
    if k == 0 then d else Turned(Clockwise(d), k - 1)
  }

  /** Four clockwise turns from a heading meet every heading once. */
  lemma TurnsCoverHeadings(d: Dir)
    requires d.IsHeading()
    ensures forall e :: e in Headings ==> exists k :: 1 <= k <= 4 && Turned(d, k) == e
    ensures Turned(d, 4) == d && Turned(d, 2) == Reverse(d)
  {
    ClockwiseCycle(d);
    assert Turned(d, 1) == Clockwise(d);
    assert Turned(d, 2) == Clockwise(Clockwise(d));
    assert Turned(d, 3) == Clockwise(Clockwise(Clockwise(d)));
    assert Turned(d, 4) == Clockwise(Clockwise(Clockwise(Clockwise(d))));
  }

  /**
   * The repeat loop of the random choice: turn clockwise until the heading
   * is passable, at most n + 1 times.
   */
  function NextPassable(passable: set<Dir>, d: Dir, n: nat): Dir
    decreases n
  {
    var e := Clockwise(d);
    if e in passable || n == 0 then e else NextPassable(passable, e, n - 1)
  }

  /** The repeat loop stops at the first passable heading clockwise from d. */
  lemma {:induction false} NextPassableIsFirst(passable: set<Dir>, d: Dir, n: nat, k: nat)
    requires 1 <= k <= n + 1
    requires Turned(d, k) in passable
    requires forall j :: 1 <= j < k ==> Turned(d, j) !in passable
    ensures NextPassable(passable, d, n) == Turned(d, k)
    decreases n
  {
    assert Turned(d, 1) == Clockwise(d);
    if k > 1 {
      forall j | 1 <= j < k - 1 ensures Turned(Clockwise(d), j) !in passable {
        assert Turned(d, j + 1) == Turned(Clockwise(d), j);
      }
      assert Turned(d, k) == Turned(Clockwise(d), k - 1);
      NextPassableIsFirst(passable, Clockwise(d), n - 1, k - 1);
    }
  }

  /**
   * The frightened ghost's choice from the random heading start: the first
   * passable heading clockwise from start, and if that is the reverse of
   * current, the next passable one clockwise from there.
   */
  function RandomChoice(passable: set<Dir>, current: Dir, start: Dir): Dir {
    var first := FirstPassable(passable, start);
    if first != Reverse(current) then first else FirstPassable(passable, first)
  }

  /** One run of the repeat loop from d: at most four clockwise turns. */
  function FirstPassable(passable: set<Dir>, d: Dir): Dir {
    NextPassable(passable, d, 3)
  }

  /** The first passable heading clockwise from d is passable, when some heading is. */
  lemma NextPassableFound(passable: set<Dir>, d: Dir) returns (k: nat)
    requires d.IsHeading() && passable * Headings != {}
    ensures 1 <= k <= 4 && Turned(d, k) in passable && NextPassable(passable, d, 3) == Turned(d, k)
    ensures forall j :: 1 <= j < k ==> Turned(d, j) !in passable
  {
    TurnsCoverHeadings(d);
    var e :| e in passable * Headings;
    var m :| 1 <= m <= 4 && Turned(d, m) == e;
    k := 1;
    while Turned(d, k) !in passable
      invariant 1 <= k <= m
      invariant forall j :: 1 <= j < k ==> Turned(d, j) !in passable
      decreases m - k
    {
      k := k + 1;
    }
    NextPassableIsFirst(passable, d, 3, k);
  }

  /**
   * The random choice is always passable, and it is the reverse of the
   * current heading only when that is the one passable heading.
   */
  lemma RandomChoiceSound(passable: set<Dir>, current: Dir, start: Dir)
    requires start.IsHeading() && passable * Headings != {}
    ensures RandomChoice(passable, current, start) in passable * Headings
    ensures current.IsHeading() && RandomChoice(passable, current, start) == Reverse(current) ==>
              passable * Headings == {Reverse(current)}
  {
    var k := NextPassableFound(passable, start);
    var first := NextPassable(passable, start, 3);
    TurnsCoverHeadings(start);
    ClockwiseCycle(start);
    assert first in Headings by {
      TurnsAreHeadings(start, k);
    }
    if first == Reverse(current) {
      var k2 := NextPassableFound(passable, first);
      TurnsAreHeadings(first, k2);
      TurnsCoverHeadings(first);
      if current.IsHeading() && NextPassable(passable, first, 3) == Reverse(current) {
        // The second search came all the way round: the other three headings are closed.
        assert Turned(first, k2) == first;
        assert k2 == 4 by {
          DistinctTurns(first);
        }
        forall e | e in passable * Headings ensures e == Reverse(current) {
          var j :| 1 <= j <= 4 && Turned(first, j) == e;
        }
      }
    }
  }

  lemma TurnsAreHeadings(d: Dir, k: nat)
    requires d.IsHeading()
    ensures Turned(d, k) in Headings
    decreases k
  {
    if k > 0 {
      TurnsAreHeadings(Clockwise(d), k - 1);
    }
  }

  /** The first three clockwise turns of a heading differ from it. */
  lemma DistinctTurns(d: Dir)
    requires d.IsHeading()
    ensures Turned(d, 1) != d && Turned(d, 2) != d && Turned(d, 3) != d
  {
    assert Turned(d, 1) == Clockwise(d);
    assert Turned(d, 2) == Clockwise(Clockwise(d));
    assert Turned(d, 3) == Clockwise(Clockwise(Clockwise(d)));
  }
}
