/**
 * Grid geometry of GrainInterfaces/Extensions.cs: turning, one-cell moves, and the random
 * placement of a point on the board. The C# switch arms that throw for an out-of-range enum
 * value have no counterpart: a `Direction` is always one of the four constructors.
 */
module Geometry {
  import opened Wrappers
  import opened Values

  datatype Direction = Up | Down | Left | Right

  /** Up and Down change y; Left and Right change x. */
  predicate IsVertical(d: Direction) {
    d == Up || d == Down
  }

  /** A quarter turn counter-clockwise. */
  function LeftOf(d: Direction): (r: Direction)
    ensures IsVertical(r) != IsVertical(d)
  {
    match d
    case Up => Left
    case Left => Down
    case Down => Right
    case Right => Up
  }

  /** A quarter turn clockwise: it is undone by a left turn. */
  function RightOf(d: Direction): (r: Direction)
    ensures IsVertical(r) != IsVertical(d)
    ensures LeftOf(r) == d
  {
    match d
    case Up => Right
    case Right => Down
    case Down => Left
    case Left => Up
  }

  /** A half turn: the same as two left turns and as two right turns. */
  function OppositeOf(d: Direction): (r: Direction)
    ensures r != d && IsVertical(r) == IsVertical(d)
    ensures r == LeftOf(LeftOf(d)) && r == RightOf(RightOf(d))
  {
    match d
    case Up => Down
    case Right => Left
    case Down => Up
    case Left => Right
  }

  /** A left turn is undone by a right turn, and the other way round. */
  lemma TurnsAreInverse(d: Direction)
    ensures RightOf(LeftOf(d)) == d
    ensures LeftOf(RightOf(d)) == d
  {
  }

  /** Turning round twice faces the original way. */
  lemma OppositeIsInvolution(d: Direction)
    ensures OppositeOf(OppositeOf(d)) == d
  {
  }

  /** Four left turns are a full circle. */
  lemma FourLeftTurns(d: Direction)
    ensures LeftOf(LeftOf(LeftOf(LeftOf(d)))) == d
  {
    assert LeftOf(LeftOf(d)) == OppositeOf(d);
    assert LeftOf(LeftOf(OppositeOf(d))) == OppositeOf(OppositeOf(d));
  }

  /** One cell in direction d; y grows downwards, as on the screen. */
  function Move(p: Point, d: Direction): (r: Point)
    ensures IsVertical(d) ==> r.x == p.x && (r.y == p.y + 1 || r.y == p.y - 1)
    ensures !IsVertical(d) ==> r.y == p.y && (r.x == p.x + 1 || r.x == p.x - 1)
  {
    match d
    case Up => Point(p.x, p.y - 1)
    case Left => Point(p.x - 1, p.y)
    case Down => Point(p.x, p.y + 1)
    case Right => Point(p.x + 1, p.y)
  }

  /** Moving one cell and then one cell back returns to the start. */
  lemma MoveThenBack(p: Point, d: Direction)
    ensures Move(Move(p, d), OppositeOf(d)) == p
  {
  }

  /** The cells of a board: [0, width) x [0, height). */
  predicate OnBoard(p: Point, size: Size) {
    0 <= p.x < size.width && 0 <= p.y < size.height
  }

  /**
   * What `Random.Next(lo, hi)` may return when lo <= hi: a value of [lo, hi), or lo itself
   * when the range is empty.
   */
  predicate NextResult(lo: int, hi: int, v: int) {
    lo <= v < hi || (lo == hi && v == lo)
  }

  /** `Random.Next(lo, hi)`; None stands for the ArgumentOutOfRangeException thrown when hi < lo. */
  method Next(lo: int, hi: int) returns (r: Option<int>)
    ensures r.None? <==> hi < lo
    ensures r.Some? ==> NextResult(lo, hi, r.value)
  {
    if hi < lo {
      return None;
    }
    var v :| lo <= v <= (if lo < hi then hi - 1 else lo);
    return Some(v);
  }

  /** Where `OnScreen(border, size)` may put a point: each coordinate drawn from [border, extent - border). */
  predicate Placed(p: Point, border: int, size: Size) {
    NextResult(border, size.width - border, p.x) && NextResult(border, size.height - border, p.y)
  }

  /**
   * `Random.OnScreen(border, size)`: a random point at least `border` cells inside each edge.
   * None when either draw throws, that is when the border leaves a negative range.
   */
  method OnScreen(border: int, size: Size) returns (r: Option<Point>)
    ensures r.None? <==> size.width - border < border || size.height - border < border
    ensures r.Some? ==> Placed(r.value, border, size)
  {
    var x := Next(border, size.width - border);
    if x.None? {
      return None;
    }
    var y := Next(border, size.height - border);
    if y.None? {
      return None;
    }
    return Some(Point(x.value, y.value));
  }

  /** With border 0 on a board with at least one cell, a placed point is on the board. */
  lemma PlacedOnBoard(p: Point, size: Size)
    requires Placed(p, 0, size) && size.width > 0 && size.height > 0
    ensures OnBoard(p, size)
  {
  }
}
