/**
 * Directions of movement (EnDirection) and the current/next direction
 * pair every actor carries (CgDirection).
 *
 * Rows grow upwards: Up is +1 on the vertical axis, Down is -1.
 */
module Direction {

  datatype Dir = None | Stop | Right | Left | Up | Down {

    /** One of the four headings an actor can actually move in. */
    predicate IsHeading() {
      this == Right || this == Left || this == Up || this == Down
    }
  }

  /** Column step of one tile in direction d. */
  function HorizontalDelta(d: Dir): (r: int)
    ensures -1 <= r <= 1
    ensures r != 0 <==> d == Right || d == Left
    ensures r == 1 <==> d == Right
  {
    match d
    case Left => -1
    case Right => 1
    case _ => 0
  }

  /** Row step of one tile in direction d. */
  function VerticalDelta(d: Dir): (r: int)
    ensures -1 <= r <= 1
    ensures r != 0 <==> d == Up || d == Down
    ensures r == 1 <==> d == Up
  {
    match d
    case Up => 1
    case Down => -1
    case _ => 0
  }

  /** The opposite heading: both steps negated; None and Stop are their own reverse. */
  function Reverse(d: Dir): (r: Dir)
    ensures HorizontalDelta(r) == -HorizontalDelta(d)
    ensures VerticalDelta(r) == -VerticalDelta(d)
    ensures !d.IsHeading() ==> r == d
    ensures d.IsHeading() <==> r.IsHeading()
  {
    match d
    case None => None
    case Stop => Stop
    case Up => Down
    case Down => Up
    case Left => Right
    case Right => Left
  }

  /** A quarter turn clockwise: the step (h, v) becomes (v, -h). */
  function Clockwise(d: Dir): (r: Dir)
    ensures HorizontalDelta(r) == VerticalDelta(d)
    ensures VerticalDelta(r) == -HorizontalDelta(d)
    ensures !d.IsHeading() ==> r == d
    ensures d.IsHeading() <==> r.IsHeading()
  {
    match d
    case None => None
    case Stop => Stop
    case Up => Right
    case Down => Left
    case Left => Up
    case Right => Down
  }

  /** A quarter turn counter-clockwise: the step (h, v) becomes (-v, h). */
  function CounterClockwise(d: Dir): (r: Dir)
    ensures HorizontalDelta(r) == -VerticalDelta(d)
    ensures VerticalDelta(r) == HorizontalDelta(d)
    ensures !d.IsHeading() ==> r == d
    ensures d.IsHeading() <==> r.IsHeading()
  {
    match d
    case None => None
    case Stop => Stop
    case Up => Left
    case Down => Right
    case Left => Down
    case Right => Up
  }

  /** A direction is determined by its two steps, except that None and Stop share (0, 0). */
  lemma StepsDetermineHeading(a: Dir, b: Dir)
    requires a.IsHeading()
    requires HorizontalDelta(a) == HorizontalDelta(b) && VerticalDelta(a) == VerticalDelta(b)
    ensures a == b
  {
  }

  lemma ReverseInvolution(d: Dir)
    ensures Reverse(Reverse(d)) == d
  {
  }

  lemma ClockwiseUndoesCounterClockwise(d: Dir)
    ensures Clockwise(CounterClockwise(d)) == d
    ensures CounterClockwise(Clockwise(d)) == d
  {
  }

  /** Two quarter turns make the reverse; four make the identity. */
  lemma ClockwiseCycle(d: Dir)
    ensures Clockwise(Clockwise(d)) == Reverse(d)
    ensures Clockwise(Clockwise(Clockwise(Clockwise(d)))) == d
  {
  }

  /** The current direction of an actor and the one it has been asked to take next. */
  datatype Heading = Heading(current: Dir, next: Dir) {

    /** Ask for a new direction; the current one is kept until Update. */
    function Set(d: Dir): (r: Heading)
      ensures r.current == current && r.next == d
    {
      this.(next := d)
    }

    /** Commit the requested direction, unless the request is Stop. */
    function Update(): (r: Heading)
      ensures r.next == next
      ensures !r.IsChanging() || (next == Stop && current != Stop)
      ensures next != Stop ==> r.current == next
      ensures next == Stop ==> r == this
    {
      if next != Stop then this.(current := next) else this
    }

    predicate IsChanging() {
      current != next
    }
  }

  /**
   * A request is pending exactly when it differs from the current heading;
   * committing it settles the pair, except that a request to stop is never
   * committed and leaves the current heading as it was.
   */
  lemma SetThenUpdate(h: Heading, d: Dir)
    ensures h.Set(d).IsChanging() <==> d != h.current
    ensures d != Stop ==> h.Set(d).Update() == Heading(d, d) && !h.Set(d).Update().IsChanging()
    ensures d == Stop ==> h.Set(d).Update().current == h.current
  {
  }

  /** The pair after CgDirection.reset. */
  const StoppedHeading: Heading := Heading(Stop, Stop)

  /** Committing twice is the same as committing once. */
  lemma UpdateIdempotent(h: Heading)
    ensures h.Update().Update() == h.Update()
  {
  }

  /** Mutable current/next direction pair, updated in place as the program does. */
  class CgDirection {
    var currentDirection: Dir
    var nextDirection: Dir

    function Value(): Heading
      reads this
    {
      Heading(currentDirection, nextDirection)
    }

    constructor()
      ensures Value() == Heading(None, None)
    {
      currentDirection := None;
      nextDirection := None;
    }

    method Reset()
      modifies this
      ensures Value() == StoppedHeading
    {
      currentDirection := Stop;
      nextDirection := Stop;
    }

    method Set(d: Dir)
      modifies this
      ensures Value() == old(Value()).Set(d)
    {
      nextDirection := d;
    }

    method Update()
      modifies this
      ensures Value() == old(Value()).Update()
    {
      if nextDirection != Stop {
        currentDirection := nextDirection;
      }
    }

  }
}
