/**
 * The segment/triangle test `intersect_triangle` (Möller & Trumbore, "Fast,
 * Minimum Storage Ray/Triangle Intersection", 1997): a chain of early-return
 * guards over the quantities the algorithm computes, here over exact reals.
 */
module Intersect {
  import opened Geometry
  import opened Wrappers
  import VectorAlgebra

  /** The tolerance of the parallel test and of the forward test. */
  const EPSILON: real := 0.000001

  /** `a = edge1 · (dir × edge2)`, the determinant of the 3×3 system. */
  function Det(line: LineSegment, triangle: Triangle): real {
    triangle.Edge1().Dot(line.Dir().Cross(triangle.Edge2()))
  }

  /** The segment counts as parallel to the triangle's plane: `-EPSILON < a < EPSILON`. */
  predicate Parallel(line: LineSegment, triangle: Triangle) {
    Det(line, triangle) > -EPSILON && Det(line, triangle) < EPSILON
  }

  /** `s = start - v1`, the segment's start relative to the first vertex. */
  function Offset(line: LineSegment, triangle: Triangle): Vector3 {
    line.start.Sub(triangle.v1)
  }

  /** The barycentric coordinate along `edge1`: `u = f * (s · h)` with `f = 1 / a`. */
  function U(line: LineSegment, triangle: Triangle): real
    requires !Parallel(line, triangle)
  {
    (1.0 / Det(line, triangle)) * Offset(line, triangle).Dot(line.Dir().Cross(triangle.Edge2()))
  }

  /** The barycentric coordinate along `edge2`: `v = f * (dir · q)` with `q = s × edge1`. */
  function V(line: LineSegment, triangle: Triangle): real
    requires !Parallel(line, triangle)
  {
    (1.0 / Det(line, triangle)) * line.Dir().Dot(Offset(line, triangle).Cross(triangle.Edge1()))
  }

  /** The parameter along the segment's line: `t = f * (edge2 · q)`. */
  function T(line: LineSegment, triangle: Triangle): real
    requires !Parallel(line, triangle)
  {
    (1.0 / Det(line, triangle)) * triangle.Edge2().Dot(Offset(line, triangle).Cross(triangle.Edge1()))
  }

  /** All four guards of the test let the pair through. */
  predicate Accepted(line: LineSegment, triangle: Triangle) {
    && !Parallel(line, triangle)
    && 0.0 <= U(line, triangle) <= 1.0
    && 0.0 <= V(line, triangle)
    && U(line, triangle) + V(line, triangle) <= 1.0
    && T(line, triangle) > EPSILON
  }

  /**
   * The test itself. There is deliberately no `t <= 1` guard: the test
   * behaves like a ray from `start` through `end` and beyond.
   */
  function IntersectTriangle(line: LineSegment, triangle: Triangle): (r: Option<Point3>)
    ensures Parallel(line, triangle) ==> r == None
    ensures r.Some? <==> Accepted(line, triangle)
    ensures r.Some? ==> r.value == line.At(T(line, triangle))
  {
    if Parallel(line, triangle) then
      None
    else
      var u := U(line, triangle);
      if u < 0.0 || u > 1.0 then
        None
      else
        var v := V(line, triangle);
        if v < 0.0 || u + v > 1.0 then
          None
        else
          var t := T(line, triangle);
          if t > EPSILON then Some(line.At(t)) else None
  }

  /**
   * The code's determinant is minus the component of the direction along the
   * face normal, so a segment whose direction is (nearly) orthogonal to the
   * normal is rejected.
   */
  lemma ParallelMisses(line: LineSegment, triangle: Triangle)
    requires -EPSILON < line.Dir().Dot(triangle.Normal()) < EPSILON
    ensures IntersectTriangle(line, triangle) == None
  {
    VectorAlgebra.TripleProductSwap(line.Dir(), triangle.Edge1(), triangle.Edge2());
  }

  /** A zero-area triangle or a zero-length segment never yields a hit. */
  lemma DegenerateMisses(line: LineSegment, triangle: Triangle)
    requires triangle.Normal() == Zero || line.Dir() == Zero
    ensures IntersectTriangle(line, triangle) == None
  {
    VectorAlgebra.TripleProductSwap(line.Dir(), triangle.Edge1(), triangle.Edge2());
    assert Det(line, triangle) == 0.0;
  }

  /**
   * The algebra behind the test: whenever the determinant is not rejected,
   * the point at the computed parameter `t` along the segment's line is the
   * point of the triangle's plane with the computed barycentric coordinates.
   */
  lemma SolvesSystem(line: LineSegment, triangle: Triangle)
    requires !Parallel(line, triangle)
    ensures line.At(T(line, triangle)) == triangle.Barycentric(U(line, triangle), V(line, triangle))
  {
    SolvesX(line, triangle);
    SolvesY(line, triangle);
    SolvesZ(line, triangle);
  }

  lemma SolvesX(line: LineSegment, triangle: Triangle)
    requires !Parallel(line, triangle)
    ensures Offset(line, triangle).x
            == U(line, triangle) * triangle.Edge1().x + V(line, triangle) * triangle.Edge2().x
               - T(line, triangle) * line.Dir().x
  {
    var d, e1, e2, s := line.Dir(), triangle.Edge1(), triangle.Edge2(), Offset(line, triangle);
    VectorAlgebra.CramerX(d, e1, e2, s);
    SolvesCoordinate(line, triangle, s.x, e1.x, e2.x, d.x);
  }

  lemma SolvesY(line: LineSegment, triangle: Triangle)
    requires !Parallel(line, triangle)
    ensures Offset(line, triangle).y
            == U(line, triangle) * triangle.Edge1().y + V(line, triangle) * triangle.Edge2().y
               - T(line, triangle) * line.Dir().y
  {
    var d, e1, e2, s := line.Dir(), triangle.Edge1(), triangle.Edge2(), Offset(line, triangle);
    VectorAlgebra.CramerY(d, e1, e2, s);
    SolvesCoordinate(line, triangle, s.y, e1.y, e2.y, d.y);
  }

  lemma SolvesZ(line: LineSegment, triangle: Triangle)
    requires !Parallel(line, triangle)
    ensures Offset(line, triangle).z
            == U(line, triangle) * triangle.Edge1().z + V(line, triangle) * triangle.Edge2().z
               - T(line, triangle) * line.Dir().z
  {
    var d, e1, e2, s := line.Dir(), triangle.Edge1(), triangle.Edge2(), Offset(line, triangle);
    VectorAlgebra.CramerZ(d, e1, e2, s);
    SolvesCoordinate(line, triangle, s.z, e1.z, e2.z, d.z);
  }

  /** One coordinate of the system, divided by the determinant. */
  lemma SolvesCoordinate(line: LineSegment, triangle: Triangle, sc: real, e1c: real, e2c: real, dc: real)
    requires !Parallel(line, triangle)
    requires var d, e1, e2, s := line.Dir(), triangle.Edge1(), triangle.Edge2(), Offset(line, triangle);
             Det(line, triangle) * sc
             == s.Dot(d.Cross(e2)) * e1c + d.Dot(s.Cross(e1)) * e2c - e2.Dot(s.Cross(e1)) * dc
    ensures sc == U(line, triangle) * e1c + V(line, triangle) * e2c - T(line, triangle) * dc
  {
    var d, e1, e2, s := line.Dir(), triangle.Edge1(), triangle.Edge2(), Offset(line, triangle);
    var a := Det(line, triangle);
    var f := 1.0 / a;
    assert f * a == 1.0;
    VectorAlgebra.DivideOut(a, f, sc, s.Dot(d.Cross(e2)), d.Dot(s.Cross(e1)), e2.Dot(s.Cross(e1)), e1c, e2c, dc);
  }

  /**
   * Soundness: a reported point is the point of the triangle with the
   * computed barycentric coordinates, those coordinates lie in the closed
   * unit simplex, and the point lies in the triangle's plane.
   */
  lemma HitLiesOnTriangle(line: LineSegment, triangle: Triangle, p: Point3)
    requires IntersectTriangle(line, triangle) == Some(p)
    ensures !Parallel(line, triangle)
    ensures 0.0 <= U(line, triangle) && 0.0 <= V(line, triangle)
    ensures U(line, triangle) + V(line, triangle) <= 1.0
    ensures T(line, triangle) > EPSILON
    ensures p == line.At(T(line, triangle))
    ensures p == triangle.Barycentric(U(line, triangle), V(line, triangle))
    ensures triangle.Normal().Dot(p.Sub(triangle.v1)) == 0.0
  {
    var u, v := U(line, triangle), V(line, triangle);
    var e1, e2 := triangle.Edge1(), triangle.Edge2();
    SolvesSystem(line, triangle);
    assert p.Sub(triangle.v1) == e1.Scale(u).Plus(e2.Scale(v));
    VectorAlgebra.InPlane(e1, e2, u, v);
  }

  /**
   * When the pair is not rejected as parallel, the line meets the plane in
   * one point only: any parameter and barycentric coordinates that describe a
   * common point are the ones the test computes.
   */
  lemma CoordinatesUnique(line: LineSegment, triangle: Triangle, u: real, v: real, t: real)
    requires !Parallel(line, triangle)
    requires line.At(t) == triangle.Barycentric(u, v)
    ensures U(line, triangle) == u && V(line, triangle) == v && T(line, triangle) == t
  {
    var d, e1, e2, s := line.Dir(), triangle.Edge1(), triangle.Edge2(), Offset(line, triangle);
    var a := Det(line, triangle);
    assert s == e1.Scale(u).Plus(e2.Scale(v)).Plus(d.Scale(-t));
    VectorAlgebra.CoordinateU(d, e1, e2, u, v, t);
    VectorAlgebra.CoordinateV(d, e1, e2, u, v, t);
    VectorAlgebra.CoordinateT(d, e1, e2, u, v, t);
    assert (1.0 / a) * a == 1.0;
  }

  /**
   * Completeness: if the ray from `start` meets the closed triangle at a
   * parameter beyond EPSILON, and the pair is not rejected as parallel, the
   * test reports exactly that point, and its computed coordinates are the
   * true ones.
   */
  lemma HitIsFound(line: LineSegment, triangle: Triangle, u: real, v: real, t: real)
    requires !Parallel(line, triangle)
    requires 0.0 <= u && 0.0 <= v && u + v <= 1.0 && t > EPSILON
    requires line.At(t) == triangle.Barycentric(u, v)
    ensures U(line, triangle) == u && V(line, triangle) == v && T(line, triangle) == t
    ensures IntersectTriangle(line, triangle) == Some(line.At(t))
  {
    CoordinatesUnique(line, triangle, u, v, t);
  }

  /**
   * The miss side: a line that meets the plane outside the triangle, or
   * only at a parameter up to EPSILON (behind or at the start), gets no hit.
   */
  lemma OutsideMisses(line: LineSegment, triangle: Triangle, u: real, v: real, t: real)
    requires !Parallel(line, triangle)
    requires line.At(t) == triangle.Barycentric(u, v)
    requires u < 0.0 || v < 0.0 || u + v > 1.0 || t <= EPSILON
    ensures IntersectTriangle(line, triangle) == None
  {
    CoordinatesUnique(line, triangle, u, v, t);
  }

  /** Translation changes none of the vectors the test works with. */
  lemma TranslatedQuantities(line: LineSegment, triangle: Triangle, delta: Vector3)
    ensures Det(line.Translate(delta), triangle.Translate(delta)) == Det(line, triangle)
    ensures Offset(line.Translate(delta), triangle.Translate(delta)) == Offset(line, triangle)
    ensures line.Translate(delta).Dir() == line.Dir()
    ensures triangle.Translate(delta).Edge1() == triangle.Edge1()
    ensures triangle.Translate(delta).Edge2() == triangle.Edge2()
  {
    var line', triangle' := line.Translate(delta), triangle.Translate(delta);
    assert line'.Dir() == line.Dir();
    assert triangle'.Edge1() == triangle.Edge1() && triangle'.Edge2() == triangle.Edge2();
  }

  /** Moving the segment and the triangle together moves the hit point with them. */
  lemma TranslationInvariant(line: LineSegment, triangle: Triangle, delta: Vector3)
    ensures IntersectTriangle(line.Translate(delta), triangle.Translate(delta))
            == match IntersectTriangle(line, triangle)
               case None => None
               case Some(p) => Some(p.Add(delta))
  {
    var line', triangle' := line.Translate(delta), triangle.Translate(delta);
    TranslatedQuantities(line, triangle, delta);
    assert Parallel(line', triangle') == Parallel(line, triangle);
    if !Parallel(line, triangle) {
      assert U(line', triangle') == U(line, triangle);
      assert V(line', triangle') == V(line, triangle);
      assert T(line', triangle') == T(line, triangle);
      var t := T(line, triangle);
      assert line'.At(t) == line.At(t).Add(delta);
    }
  }
}
