/**
 * Three-component points of the editor scene, with the linear operations the
 * path editing code uses, and the cubic Bernstein evaluation of a segment.
 * Coordinates are reals: the single-precision rounding of the original is not
 * modelled, so every linear identity below holds exactly.
 */
module Vectors {

  datatype Vec3 = Vec3(x: real, y: real, z: real)

  const Zero := Vec3(0.0, 0.0, 0.0)
  /** The engine's unit vectors pointing to negative and positive x. */
  const Left := Vec3(-1.0, 0.0, 0.0)
  const Right := Vec3(1.0, 0.0, 0.0)

  function Add(a: Vec3, b: Vec3): Vec3 {
    Vec3(a.x + b.x, a.y + b.y, a.z + b.z)
  }

  function Sub(a: Vec3, b: Vec3): Vec3 {
    Vec3(a.x - b.x, a.y - b.y, a.z - b.z)
  }

  function Scale(a: Vec3, s: real): Vec3 {
    Vec3(a.x * s, a.y * s, a.z * s)
  }

  /** The point with the same x and z and height zero. */
  function Flat(a: Vec3): (r: Vec3)
    ensures r.y == 0.0 && r.x == a.x && r.z == a.z
  {
    Vec3(a.x, 0.0, a.z)
  }

  function Cube(s: real): real {
    s * s * s
  }

  function Square(s: real): real {
    s * s
  }

  /** The cubic Bezier curve of the first four control points, evaluated at t. */
  function BezierPoint(points: seq<Vec3>, t: real): Vec3
    requires |points| >= 4
  {
    Add(Add(Add(
      Scale(points[0], Cube(1.0 - t)),
      Scale(points[1], 3.0 * Square(1.0 - t) * t)),
      Scale(points[2], 3.0 * (1.0 - t) * Square(t))),
      Scale(points[3], Cube(t)))
  }

  /** The curve starts at its first control point and ends at its last one. */
  lemma BezierEndpoints(points: seq<Vec3>)
    requires |points| >= 4
    ensures BezierPoint(points, 0.0) == points[0]
    ensures BezierPoint(points, 1.0) == points[3]
  {
  }

  /** The four Bernstein weights sum to one at every t. */
  lemma BernsteinSum(t: real)
    ensures Cube(1.0 - t) + 3.0 * Square(1.0 - t) * t + 3.0 * (1.0 - t) * Square(t) + Cube(t) == 1.0
  {
    var u := 1.0 - t;
    assert Cube(u) + 3.0 * Square(u) * t + 3.0 * u * Square(t) + Cube(t) == (u + t) * (u + t) * (u + t);
  }

  /** When all four control points coincide, so does every point of the curve. */
  lemma BezierOfPointIsPoint(c: Vec3, t: real)
    ensures BezierPoint([c, c, c, c], t) == c
  {
    var w0, w1, w2, w3 := Cube(1.0 - t), 3.0 * Square(1.0 - t) * t, 3.0 * (1.0 - t) * Square(t), Cube(t);
    BernsteinSum(t);
    BezierComponents([c, c, c, c], t);
    CombOfConstant(c.x, w0, w1, w2, w3);
    CombOfConstant(c.y, w0, w1, w2, w3);
    CombOfConstant(c.z, w0, w1, w2, w3);
  }

  /** The weighted sum of four values. */
  function Comb(v0: real, v1: real, v2: real, v3: real, w0: real, w1: real, w2: real, w3: real): real {
    v0 * w0 + v1 * w1 + v2 * w2 + v3 * w3
  }

  /** Each coordinate of a curve point is the Bernstein-weighted sum of that coordinate of the control points. */
  lemma BezierComponents(points: seq<Vec3>, t: real)
    requires |points| >= 4
    ensures var w0, w1, w2, w3 := Cube(1.0 - t), 3.0 * Square(1.0 - t) * t, 3.0 * (1.0 - t) * Square(t), Cube(t);
      BezierPoint(points, t) == Vec3(Comb(points[0].x, points[1].x, points[2].x, points[3].x, w0, w1, w2, w3),
                                     Comb(points[0].y, points[1].y, points[2].y, points[3].y, w0, w1, w2, w3),
                                     Comb(points[0].z, points[1].z, points[2].z, points[3].z, w0, w1, w2, w3))
  {
  }

  /** With weights summing to one, the weighted sum of four copies of a value is that value. */
  lemma CombOfConstant(u: real, w0: real, w1: real, w2: real, w3: real)
    requires w0 + w1 + w2 + w3 == 1.0
    ensures Comb(u, u, u, u, w0, w1, w2, w3) == u
  {
    assert Comb(u, u, u, u, w0, w1, w2, w3) == u * (w0 + w1 + w2 + w3);
  }

  /** A weighted sum of shifted values, with weights summing to one, is the shift plus the weighted sum. */
  lemma WeightedShift(u: real, v0: real, v1: real, v2: real, v3: real, w0: real, w1: real, w2: real, w3: real)
    requires w0 + w1 + w2 + w3 == 1.0
    ensures Comb(u + v0, u + v1, u + v2, u + v3, w0, w1, w2, w3) == u + Comb(v0, v1, v2, v3, w0, w1, w2, w3)
  {
    assert (u + v0) * w0 + (u + v1) * w1 + (u + v2) * w2 + (u + v3) * w3 ==
      u * (w0 + w1 + w2 + w3) + (v0 * w0 + v1 * w1 + v2 * w2 + v3 * w3);
  }

  /** Moving every control point by c moves every point of the curve by c. */
  lemma BezierTranslate(c: Vec3, a0: Vec3, a1: Vec3, a2: Vec3, a3: Vec3, t: real)
    ensures BezierPoint([Add(c, a0), Add(c, a1), Add(c, a2), Add(c, a3)], t) == Add(c, BezierPoint([a0, a1, a2, a3], t))
  {
    var w0, w1, w2, w3 := Cube(1.0 - t), 3.0 * Square(1.0 - t) * t, 3.0 * (1.0 - t) * Square(t), Cube(t);
    BernsteinSum(t);
    BezierComponents([Add(c, a0), Add(c, a1), Add(c, a2), Add(c, a3)], t);
    BezierComponents([a0, a1, a2, a3], t);
    WeightedShift(c.x, a0.x, a1.x, a2.x, a3.x, w0, w1, w2, w3);
    WeightedShift(c.y, a0.y, a1.y, a2.y, a3.y, w0, w1, w2, w3);
    WeightedShift(c.z, a0.z, a1.z, a2.z, a3.z, w0, w1, w2, w3);
  }
}
