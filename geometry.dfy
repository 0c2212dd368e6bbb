/**
 * Points, vectors, triangles and line segments: the value types of the
 * intersection pipeline. The original works over single-precision floats
 * with the cgmath crate; this model works over exact reals, so the algebraic
 * identities that the intersection test relies on hold exactly here.
 */
module Geometry {

  /** A displacement in space (cgmath's Vector3). */
  datatype Vector3 = Vector3(x: real, y: real, z: real) {

    function Plus(w: Vector3): Vector3 {
      Vector3(x + w.x, y + w.y, z + w.z)
    }

    /** The vector multiplied by a scalar, written `k * v` in the original. */
    function Scale(k: real): Vector3 {
      Vector3(k * x, k * y, k * z)
    }

    function Dot(w: Vector3): real {
      x * w.x + y * w.y + z * w.z
    }

    /** The right-handed cross product `this × w`. */
    function Cross(w: Vector3): Vector3 {
      Vector3(y * w.z - z * w.y, z * w.x - x * w.z, x * w.y - y * w.x)
    }
  }

  const Zero: Vector3 := Vector3(0.0, 0.0, 0.0)

  /** A location in space (cgmath's Point3). */
  datatype Point3 = Point3(x: real, y: real, z: real) {

    /** The displacement from `q` to this point, written `this - q` in the original. */
    function Sub(q: Point3): Vector3 {
      Vector3(x - q.x, y - q.y, z - q.z)
    }

    /** This point moved by `v`, written `this + v` in the original. */
    function Add(v: Vector3): Point3 {
      Point3(x + v.x, y + v.y, z + v.z)
    }
  }

  /**
   * A triangle: exactly three vertices, in the order the mesh lists them
   * (the original's `vertices: [Point3; 3]`, here `v1`, `v2`, `v3`).
   */
  datatype Triangle = Triangle(v1: Point3, v2: Point3, v3: Point3) {

    function Edge1(): Vector3 {
      v2.Sub(v1)
    }

    function Edge2(): Vector3 {
      v3.Sub(v1)
    }

    /**
     * The (unnormalised) face normal given by the right-hand rule on the
     * edges from the first vertex; it is zero exactly for a degenerate triangle.
     */
    function Normal(): Vector3 {
      Edge1().Cross(Edge2())
    }

    /** The point with barycentric coordinates (u, v) relative to the first vertex. */
    function Barycentric(u: real, v: real): Point3 {
      v1.Add(Edge1().Scale(u).Plus(Edge2().Scale(v)))
    }

    /** The triangle moved by `delta`. */
    function Translate(delta: Vector3): Triangle {
      Triangle(v1.Add(delta), v2.Add(delta), v3.Add(delta))
    }
  }

  /**
   * The four corner points of one intersection marker (the original's
   * `[Point3; 4]`), in the order they are written out.
   */
  type Square = s: seq<Point3> | |s| == 4
    witness [Point3(0.0, 0.0, 0.0), Point3(0.0, 0.0, 0.0), Point3(0.0, 0.0, 0.0), Point3(0.0, 0.0, 0.0)]

  /** A directed segment from `start` to `end`. */
  datatype LineSegment = LineSegment(start: Point3, end: Point3) {

    /** The direction `end - start`; zero when the endpoints coincide. */
    function Dir(): Vector3 {
      end.Sub(start)
    }

    /** The point `start + t * dir` at parameter `t` along the segment's line. */
    function At(t: real): Point3 {
      start.Add(Dir().Scale(t))
    }

    /** The segment moved by `delta`. */
    function Translate(delta: Vector3): LineSegment {
      LineSegment(start.Add(delta), end.Add(delta))
    }
  }
}

/**
 * Vector identities over the reals that the Möller–Trumbore test relies on.
 * They hold exactly for reals; for the original's floats they hold only up
 * to rounding. Each is proved from small steps so that the solver never has
 * to expand a large polynomial at once.
 */
module VectorAlgebra {
  import opened Geometry

  lemma DotPlus(a: Vector3, b: Vector3, c: Vector3)
    ensures a.Plus(b).Dot(c) == a.Dot(c) + b.Dot(c)
  {
  }

  lemma DotScale(k: real, a: Vector3, c: Vector3)
    ensures a.Scale(k).Dot(c) == k * a.Dot(c)
  {
  }

  lemma CrossPlus(a: Vector3, b: Vector3, c: Vector3)
    ensures a.Plus(b).Cross(c) == a.Cross(c).Plus(b.Cross(c))
  {
  }

  lemma CrossScale(k: real, a: Vector3, c: Vector3)
    ensures a.Scale(k).Cross(c) == a.Cross(c).Scale(k)
  {
  }

  /** A cross product is orthogonal to both of its factors. */
  lemma CrossOrthogonal(a: Vector3, b: Vector3)
    ensures a.Dot(a.Cross(b)) == 0.0 && b.Dot(a.Cross(b)) == 0.0
  {
  }

  lemma CrossSelf(a: Vector3)
    ensures a.Cross(a) == Zero
  {
  }

  /** The scalar triple product is invariant under rotation of its arguments. */
  lemma TripleProductCycle(a: Vector3, b: Vector3, c: Vector3)
    ensures a.Dot(b.Cross(c)) == b.Dot(c.Cross(a))
  {
  }

  /** The scalar triple product changes sign when its last two arguments swap. */
  lemma TripleProductFlip(a: Vector3, b: Vector3, c: Vector3)
    ensures a.Dot(b.Cross(c)) == -a.Dot(c.Cross(b))
  {
    assert b.Cross(c) == c.Cross(b).Scale(-1.0);
    DotScale(-1.0, c.Cross(b), a);
  }

  /** The determinant `e1 · (d × e2)` is minus the direction's component along `e1 × e2`. */
  lemma TripleProductSwap(d: Vector3, e1: Vector3, e2: Vector3)
    ensures e1.Dot(d.Cross(e2)) == -d.Dot(e1.Cross(e2))
  {
    TripleProductCycle(e1, d, e2);
    TripleProductFlip(d, e2, e1);
  }

  /** Any combination of `e1` and `e2` is orthogonal to their cross product. */
  lemma {:induction false} InPlane(e1: Vector3, e2: Vector3, u: real, v: real)
    ensures e1.Cross(e2).Dot(e1.Scale(u).Plus(e2.Scale(v))) == 0.0
  {
    var n := e1.Cross(e2);
    CrossOrthogonal(e1, e2);
    DotPlus(e1.Scale(u), e2.Scale(v), n);
    DotScale(u, e1, n);
    DotScale(v, e2, n);
    assert n.Dot(e1.Scale(u).Plus(e2.Scale(v))) == e1.Scale(u).Plus(e2.Scale(v)).Dot(n);
  }

  /** Regrouping used for one coordinate of Cramer's rule. */
  lemma Regroup(p1: real, p2: real, p3: real, h1: real, h2: real, h3: real,
                c: real, k1: real, k2: real, k3: real)
    ensures (p1 * h1 + p2 * h2 + p3 * h3) * c - (k1 * h1 + k2 * h2 + k3 * h3) * p1
            == h1 * (p1 * c - k1 * p1) + h2 * (p2 * c - k2 * p1) + h3 * (p3 * c - k3 * p1)
  {
  }

  /**
   * The first coordinate of Cramer's rule for `s = u*e1 + v*e2 - t*d`,
   * scaled by the determinant, with the two cross products `h = d × e2` and
   * `q = s × e1` written out.
   */
  lemma CramerCoordinate(dx: real, dy: real, dz: real, e1x: real, e1y: real, e1z: real,
                         e2x: real, e2y: real, e2z: real, sx: real, sy: real, sz: real)
    ensures var hx, hy, hz := dy * e2z - dz * e2y, dz * e2x - dx * e2z, dx * e2y - dy * e2x;
            var qx, qy, qz := sy * e1z - sz * e1y, sz * e1x - sx * e1z, sx * e1y - sy * e1x;
            (e1x * hx + e1y * hy + e1z * hz) * sx
            == (sx * hx + sy * hy + sz * hz) * e1x
               + (dx * qx + dy * qy + dz * qz) * e2x
               - (e2x * qx + e2y * qy + e2z * qz) * dx
  {
    var hx, hy, hz := dy * e2z - dz * e2y, dz * e2x - dx * e2z, dx * e2y - dy * e2x;
    var qx, qy, qz := sy * e1z - sz * e1y, sz * e1x - sx * e1z, sx * e1y - sy * e1x;
    Regroup(e1x, e1y, e1z, hx, hy, hz, sx, sx, sy, sz);
    Regroup(dx, dy, dz, qx, qy, qz, e2x, e2x, e2y, e2z);
    assert e1x * sx - sx * e1x == 0.0 && dx * e2x - e2x * dx == 0.0;
    assert e1y * sx - sy * e1x == qz && e1z * sx - sz * e1x == -qy;
    assert dy * e2x - e2y * dx == -hz && dz * e2x - e2z * dx == hy;
  }

  lemma CramerX(d: Vector3, e1: Vector3, e2: Vector3, s: Vector3)
    ensures e1.Dot(d.Cross(e2)) * s.x
            == s.Dot(d.Cross(e2)) * e1.x + d.Dot(s.Cross(e1)) * e2.x - e2.Dot(s.Cross(e1)) * d.x
  {
    CramerCoordinate(d.x, d.y, d.z, e1.x, e1.y, e1.z, e2.x, e2.y, e2.z, s.x, s.y, s.z);
  }

  lemma CramerY(d: Vector3, e1: Vector3, e2: Vector3, s: Vector3)
    ensures e1.Dot(d.Cross(e2)) * s.y
            == s.Dot(d.Cross(e2)) * e1.y + d.Dot(s.Cross(e1)) * e2.y - e2.Dot(s.Cross(e1)) * d.y
  {
    CramerCoordinate(d.y, d.z, d.x, e1.y, e1.z, e1.x, e2.y, e2.z, e2.x, s.y, s.z, s.x);
  }

  lemma CramerZ(d: Vector3, e1: Vector3, e2: Vector3, s: Vector3)
    ensures e1.Dot(d.Cross(e2)) * s.z
            == s.Dot(d.Cross(e2)) * e1.z + d.Dot(s.Cross(e1)) * e2.z - e2.Dot(s.Cross(e1)) * d.z
  {
    CramerCoordinate(d.z, d.x, d.y, e1.z, e1.x, e1.y, e2.z, e2.x, e2.y, s.z, s.x, s.y);
  }

  /** Dividing one coordinate of Cramer's rule by the determinant `a`, given `f = 1 / a`. */
  lemma DivideOut(a: real, f: real, sc: real, su: real, sv: real, st: real, e1c: real, e2c: real, dc: real)
    requires f * a == 1.0
    requires a * sc == su * e1c + sv * e2c - st * dc
    ensures sc == (f * su) * e1c + (f * sv) * e2c - (f * st) * dc
  {
    calc {
      sc;
      (f * a) * sc;
      f * (a * sc);
      f * (su * e1c + sv * e2c - st * dc);
    }
  }

  /** Expands a product with `s = u*e1 + v*e2 - t*d` on its left. */
  lemma DotCombination(d: Vector3, e1: Vector3, e2: Vector3, u: real, v: real, t: real, w: Vector3)
    ensures e1.Scale(u).Plus(e2.Scale(v)).Plus(d.Scale(-t)).Dot(w)
            == u * e1.Dot(w) + v * e2.Dot(w) - t * d.Dot(w)
  {
    DotPlus(e1.Scale(u).Plus(e2.Scale(v)), d.Scale(-t), w);
    DotPlus(e1.Scale(u), e2.Scale(v), w);
    DotScale(u, e1, w);
    DotScale(v, e2, w);
    DotScale(-t, d, w);
  }

  /** Expands a cross product with `s = u*e1 + v*e2 - t*d` on its left. */
  lemma CrossCombination(d: Vector3, e1: Vector3, e2: Vector3, u: real, v: real, t: real, w: Vector3)
    ensures e1.Scale(u).Plus(e2.Scale(v)).Plus(d.Scale(-t)).Cross(w)
            == e1.Cross(w).Scale(u).Plus(e2.Cross(w).Scale(v)).Plus(d.Cross(w).Scale(-t))
  {
    CrossPlus(e1.Scale(u).Plus(e2.Scale(v)), d.Scale(-t), w);
    CrossPlus(e1.Scale(u), e2.Scale(v), w);
    CrossScale(u, e1, w);
    CrossScale(v, e2, w);
    CrossScale(-t, d, w);
  }

  /** `s · (d × e2)` recovers the `e1` coordinate of `s = u*e1 + v*e2 - t*d`. */
  lemma CoordinateU(d: Vector3, e1: Vector3, e2: Vector3, u: real, v: real, t: real)
    ensures e1.Scale(u).Plus(e2.Scale(v)).Plus(d.Scale(-t)).Dot(d.Cross(e2))
            == u * e1.Dot(d.Cross(e2))
  {
    DotCombination(d, e1, e2, u, v, t, d.Cross(e2));
    CrossOrthogonal(d, e2);
  }

  /** `d · (s × e1)` recovers the `e2` coordinate of `s = u*e1 + v*e2 - t*d`. */
  lemma CoordinateV(d: Vector3, e1: Vector3, e2: Vector3, u: real, v: real, t: real)
    ensures d.Dot(e1.Scale(u).Plus(e2.Scale(v)).Plus(d.Scale(-t)).Cross(e1))
            == v * e1.Dot(d.Cross(e2))
  {
    var s := e1.Scale(u).Plus(e2.Scale(v)).Plus(d.Scale(-t));
    CrossCombination(d, e1, e2, u, v, t, e1);
    CrossSelf(e1);
    CrossOrthogonal(d, e1);
    var w := e1.Cross(e1).Scale(u).Plus(e2.Cross(e1).Scale(v)).Plus(d.Cross(e1).Scale(-t));
    DotCombination(d.Cross(e1), e1.Cross(e1), e2.Cross(e1), u, v, t, d);
    assert d.Dot(w) == w.Dot(d);
    TripleProductCycle(d, e2, e1);
    TripleProductCycle(e2, e1, d);
  }

  /** `e2 · (s × e1)` recovers the `d` coordinate of `s = u*e1 + v*e2 - t*d`. */
  lemma CoordinateT(d: Vector3, e1: Vector3, e2: Vector3, u: real, v: real, t: real)
    ensures e2.Dot(e1.Scale(u).Plus(e2.Scale(v)).Plus(d.Scale(-t)).Cross(e1))
            == t * e1.Dot(d.Cross(e2))
  {
    CrossCombination(d, e1, e2, u, v, t, e1);
    CrossSelf(e1);
    CrossOrthogonal(e2, e1);
    var w := e1.Cross(e1).Scale(u).Plus(e2.Cross(e1).Scale(v)).Plus(d.Cross(e1).Scale(-t));
    DotCombination(d.Cross(e1), e1.Cross(e1), e2.Cross(e1), u, v, t, e2);
    assert e2.Dot(w) == w.Dot(e2);
    TripleProductCycle(e2, d, e1);
    TripleProductCycle(d, e1, e2);
    TripleProductFlip(e1, d, e2);
  }
}
