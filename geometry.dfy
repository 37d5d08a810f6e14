/**
 * Integer points on the dungeon map (src/geometry/point.cpp).
 *
 * A Point is copied by value wherever the source uses it (an NPC stores its own
 * copy, get_position returns a copy), so the setters are value updates.
 * Euclidean distance is compared through its square, so every range check is an
 * exact integer comparison.
 */
module Geometry {

  /** The source's `int`: 32-bit two's complement. */
  newtype Int32 = x: int | -0x8000_0000 <= x < 0x8000_0000

  datatype Point = Point(x: Int32, y: Int32) {

    /** set_x: only x changes. */
    function SetX(nx: Int32): (r: Point)
      ensures r.x == nx && r.y == y
    {
      this.(x := nx)
    }

    /** set_y: only y changes. */
    function SetY(ny: Int32): (r: Point)
      ensures r.y == ny && r.x == x
    {
      this.(y := ny)
    }

    /** The square of distance_to: dx*dx + dy*dy, which is zero exactly at the point itself. */
    function DistanceSquaredTo(other: Point): (d: nat)
      ensures d == 0 <==> this == other
    {
      var dx := x as int - other.x as int;
      var dy := y as int - other.y as int;
      SquareIsZeroOnlyAtZero(dx);
      SquareIsZeroOnlyAtZero(dy);
      dx * dx + dy * dy
    }
  }

  /** Point(): the origin. */
  function Origin(): (p: Point)
    ensures p.x == 0 && p.y == 0
  {
    Point(0, 0)
  }

  lemma SquareIsZeroOnlyAtZero(d: int)
    ensures d * d >= 0
    ensures d * d == 0 <==> d == 0
  {
    if d < 0 {
      assert d * d == (-d) * (-d);
    }
  }

  /**
   * The source's `distance <= radius` test for a whole-number radius: the
   * comparison is inclusive and a negative radius admits nothing.
   */
  predicate WithinRadius(d2: nat, radius: int)
  {
    0 <= radius && d2 <= radius * radius
  }

  lemma {:induction false} DistanceIsSymmetric(p: Point, q: Point)
    ensures p.DistanceSquaredTo(q) == q.DistanceSquaredTo(p)
  {
    var dx := p.x as int - q.x as int;
    var dy := p.y as int - q.y as int;
    assert (-dx) * (-dx) == dx * dx;
    assert (-dy) * (-dy) == dy * dy;
  }

  /** Distance to itself is zero, so any point is within any non-negative radius of itself. */
  lemma SelfIsWithinAnyRadius(p: Point, radius: int)
    requires radius >= 0
    ensures p.DistanceSquaredTo(p) == 0
    ensures WithinRadius(p.DistanceSquaredTo(p), radius)
  {
  }

  /** The 3-4-5 triangle: (0,0) to (3,4) is at squared distance 25, i.e. exactly 5. */
  lemma ThreeFourFive()
    ensures Origin().DistanceSquaredTo(Point(3, 4)) == 25
    ensures WithinRadius(Origin().DistanceSquaredTo(Point(3, 4)), 5)
    ensures !WithinRadius(Origin().DistanceSquaredTo(Point(3, 4)), 4)
  {
  }

  /** A point exactly `radius` away along an axis is in range: the test is inclusive. */
  lemma {:induction false} BoundaryIsInRange(radius: Int32)
    requires radius >= 0
    ensures WithinRadius(Origin().DistanceSquaredTo(Point(radius, 0)), radius as int)
  {
    assert Origin().DistanceSquaredTo(Point(radius, 0)) == (0 - radius as int) * (0 - radius as int);
    assert (0 - radius as int) * (0 - radius as int) == radius as int * radius as int;
  }
}
