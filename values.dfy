/**
 * The value types of SharedTypes/Size.cs. Both classes have private setters that only their
 * constructors use, so each is an immutable pair of integers compared field by field.
 * A nullable reference (`Size?`, `Point?`) is an `Option`.
 */
module Values {
  import opened Wrappers

  /** A board size: width and height in cells. */
  datatype Size = Size(width: int, height: int)

  /** A cell on the board. */
  datatype Point = Point(x: int, y: int)

  /** `new Size()`. */
  function EmptySize(): (s: Size)
    ensures s.width == 0 && s.height == 0
  {
    Size(0, 0)
  }

  /** `new Point()`. */
  function Origin(): (p: Point)
    ensures p.x == 0 && p.y == 0
  {
    Point(0, 0)
  }

  /** `Size.Equals(Size? other)`: false for null, otherwise both fields must agree. */
  function SizeEquals(self: Size, other: Option<Size>): (r: bool)
    ensures r <==> other == Some(self)
  {
    other.Some? && self.width == other.value.width && self.height == other.value.height
  }

  /**
   * `Size ==` goes through `EqualityComparer<Size>.Default`: two nulls are equal, a null and
   * a non-null are not, and two non-null sizes are compared with `Equals`.
   */
  function SizeEq(left: Option<Size>, right: Option<Size>): (r: bool)
    ensures r <==> left == right
    ensures left.Some? ==> r == SizeEquals(left.value, right)
  {
    match left
    case None => right.None?
    case Some(l) => SizeEquals(l, right)
  }

  /** `Size !=`: the negation of `==`. */
  function SizeNotEq(left: Option<Size>, right: Option<Size>): (r: bool)
    ensures r <==> left != right
  {
    !SizeEq(left, right)
  }

  /** `Point.Equals(Point? other)`: false for null, otherwise both coordinates must agree. */
  function PointEquals(self: Point, other: Option<Point>): (r: bool)
    ensures r <==> other == Some(self)
  {
    other.Some? && self.x == other.value.x && self.y == other.value.y
  }

  /** `Point ==`, through `EqualityComparer<Point>.Default` as for `Size`. */
  function PointEq(left: Option<Point>, right: Option<Point>): (r: bool)
    ensures r <==> left == right
    ensures left.Some? ==> r == PointEquals(left.value, right)
  {
    match left
    case None => right.None?
    case Some(l) => PointEquals(l, right)
  }

  /** `Point !=`: the negation of `==`. */
  function PointNotEq(left: Option<Point>, right: Option<Point>): (r: bool)
    ensures r <==> left != right
  {
    !PointEq(left, right)
  }

  /** Point equality is an equivalence, and no point equals null. */
  lemma PointEqualityLaws(a: Point, b: Point, c: Point)
    ensures PointEquals(a, Some(a))
    ensures PointEquals(a, Some(b)) == PointEquals(b, Some(a))
    ensures PointEquals(a, Some(b)) && PointEquals(b, Some(c)) ==> PointEquals(a, Some(c))
    ensures !PointEquals(a, None)
  {
  }
}
