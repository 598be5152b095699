/** Planar predicates of the ear-clipping triangulator in include/geojson.hpp.
    Coordinates are exact reals, so the orientation test is exact algebra
    rather than single-precision floating point. */
module Planar {

  /** A point of the projected polygon (`geojson::vec2`). Its `==` compares
      both coordinates exactly, so value equality models it. */
  datatype Vec2 = Vec2(x: real, y: real)

  /** Twice the signed area of the triangle p1 p2 p3: positive when the
      triangle turns counter-clockwise, negative when clockwise, zero when
      the three points are collinear. */
  function Ccw(p1: Vec2, p2: Vec2, p3: Vec2): real
  {
    (p2.x - p1.x) * (p3.y - p1.y) - (p2.y - p1.y) * (p3.x - p1.x)
  }

  /** `intriangle2d`: the three orientations of p against the edges
      t1t2, t2t3, t3t1 agree on being negative. */
  predicate InTriangle(p: Vec2, t1: Vec2, t2: Vec2, t3: Vec2)
  {
    var b1 := Ccw(p, t1, t2) < 0.0;
    var b2 := Ccw(p, t2, t3) < 0.0;
    var b3 := Ccw(p, t3, t1) < 0.0;
    b1 == b2 && b2 == b3
  }

  /** Swapping the last two arguments reverses the orientation. */
  lemma CcwSwapNegates(p1: Vec2, p2: Vec2, p3: Vec2)
    ensures Ccw(p1, p3, p2) == -Ccw(p1, p2, p3)
  {
  }

  /** A cyclic rotation of the arguments keeps the orientation. */
  lemma CcwRotationInvariant(p1: Vec2, p2: Vec2, p3: Vec2)
    ensures Ccw(p2, p3, p1) == Ccw(p1, p2, p3)
    ensures Ccw(p3, p1, p2) == Ccw(p1, p2, p3)
  {
  }

  /** The three sub-triangles cut by p add up to the whole triangle. */
  lemma CcwSplit(p: Vec2, t1: Vec2, t2: Vec2, t3: Vec2)
    ensures Ccw(p, t1, t2) + Ccw(p, t2, t3) + Ccw(p, t3, t1) == Ccw(t1, t2, t3)
  {
  }

  /** The test is invariant under cyclic rotation of the triangle. */
  lemma InTriangleRotationInvariant(p: Vec2, t1: Vec2, t2: Vec2, t3: Vec2)
    ensures InTriangle(p, t1, t2, t3) == InTriangle(p, t2, t3, t1)
    ensures InTriangle(p, t1, t2, t3) == InTriangle(p, t3, t1, t2)
  {
  }

  /** Read as a set: p passes the test exactly when all three orientations
      are negative or all three are non-negative. */
  lemma InTriangleCharacterization(p: Vec2, t1: Vec2, t2: Vec2, t3: Vec2)
    ensures InTriangle(p, t1, t2, t3) <==>
      (Ccw(p, t1, t2) < 0.0 && Ccw(p, t2, t3) < 0.0 && Ccw(p, t3, t1) < 0.0) ||
      (Ccw(p, t1, t2) >= 0.0 && Ccw(p, t2, t3) >= 0.0 && Ccw(p, t3, t1) >= 0.0)
  {
  }

  /** For a counter-clockwise triangle the all-negative case is impossible,
      so the test accepts exactly the closed triangle (boundary included). */
  lemma {:induction false} InTriangleOfCcwTriangle(p: Vec2, t1: Vec2, t2: Vec2, t3: Vec2)
    requires Ccw(t1, t2, t3) > 0.0
    ensures InTriangle(p, t1, t2, t3) <==>
      Ccw(p, t1, t2) >= 0.0 && Ccw(p, t2, t3) >= 0.0 && Ccw(p, t3, t1) >= 0.0
  {
    CcwSplit(p, t1, t2, t3);
  }
}
