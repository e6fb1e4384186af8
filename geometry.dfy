/**
 * Integer rectangles and the float-to-int conversions the game applies to
 * positions before they reach a rectangle.
 */
module Geometry {

  /** A 2D position. The game stores positions as single-precision floats;
      here they are exact reals (rounding is not modelled). */
  datatype Vector2 = Vector2(x: real, y: real)
  {
    function Plus(other: Vector2): Vector2 {
      Vector2(x + other.x, y + other.y)
    }
  }

  /** An integer point, as produced by `Vector2.ToPoint` and mouse/touch positions. */
  datatype Point = Point(x: int, y: int)

  /** An axis-aligned rectangle with integer coordinates. */
  datatype Rect = Rect(x: int, y: int, width: int, height: int)
  {
    function Left(): int { x }
    function Right(): int { x + width }
    function Top(): int { y }
    function Bottom(): int { y + height }
  }

  /** Rectangle overlap with strict comparisons on all four edges: rectangles
      that only share an edge do not intersect. */
  predicate Intersects(a: Rect, b: Rect)
  {
    b.Left() < a.Right() && a.Left() < b.Right() &&
    b.Top() < a.Bottom() && a.Top() < b.Bottom()
  }

  /** An integer point lies in a rectangle: on or after its left and top
      edges, strictly before its right and bottom ones. */
  predicate Covers(r: Rect, p: Point)
  {
    r.Left() <= p.x < r.Right() && r.Top() <= p.y < r.Bottom()
  }

  /** Two rectangles of positive size intersect exactly when some integer
      point lies in both of them. */
  lemma IntersectsIffCommonPoint(a: Rect, b: Rect)
    requires a.width > 0 && a.height > 0 && b.width > 0 && b.height > 0
    ensures Intersects(a, b) <==> exists p :: Covers(a, p) && Covers(b, p)
  {
    if Intersects(a, b) {
      var p := Point(if a.x < b.x then b.x else a.x, if a.y < b.y then b.y else a.y);
      assert Covers(a, p) && Covers(b, p);
    }
  }

  /** The size matters above: the edge test lets a rectangle of zero
      width, which holds no point, intersect a wider one around it. */
  lemma EmptyRectangleCanIntersect()
    ensures Intersects(Rect(0, 0, 0, 10), Rect(-1, 0, 5, 10))
    ensures forall p :: !Covers(Rect(0, 0, 0, 10), p)
  {
    forall p
      ensures !Covers(Rect(0, 0, 0, 10), p)
    {
      assert Rect(0, 0, 0, 10).Right() == 0;
    }
  }

  /** The C# `(int)` cast of a floating-point value: truncation toward zero. */
  function Truncate(r: real): (n: int)
    ensures r >= 0.0 ==> 0 <= n && n as real <= r < n as real + 1.0
    ensures r < 0.0 ==> n <= 0 && n as real - 1.0 < r <= n as real
  {
    if r >= 0.0 then r.Floor else -((-r).Floor)
  }

  /** A rectangle moved so that its top-left corner is the truncated position. */
  function MovedTo(r: Rect, position: Vector2): Rect
  {
    r.(x := Truncate(position.x), y := Truncate(position.y))
  }

  lemma IntersectsSymmetric(a: Rect, b: Rect)
    ensures Intersects(a, b) <==> Intersects(b, a)
  {
  }

  /** Rectangles that only touch along a vertical edge do not intersect. */
  lemma TouchingEdgesDoNotIntersect(a: Rect, b: Rect)
    requires b.x == a.x + a.width
    ensures !Intersects(a, b) && !Intersects(b, a)
  {
  }

  /** A rectangle with positive extent intersects itself; an empty one intersects nothing. */
  lemma SelfIntersection(a: Rect)
    ensures Intersects(a, a) <==> a.width > 0 && a.height > 0
  {
  }

  /** Truncating a value that is already an integer gives that integer back. */
  lemma TruncateOfInteger(n: int)
    ensures Truncate(n as real) == n
  {
  }

  /** Moving keeps the size of the rectangle. */
  lemma MovedToKeepsSize(r: Rect, position: Vector2)
    ensures MovedTo(r, position).width == r.width
    ensures MovedTo(r, position).height == r.height
    ensures MovedTo(r, position).x == Truncate(position.x)
    ensures MovedTo(r, position).y == Truncate(position.y)
  {
  }
}
