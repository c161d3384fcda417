/**
 What the rotation matrix of a quaternion does to a vector: against the quaternion's own action, the
 vector taken between the quaternion and its conjugate.
 */
module Turning {
  import opened Orientation

  function Pure(v: Vec3): Quat {
    Quat(0.0, v.x, v.y, v.z)
  }

  /** The vector turned by the quaternion, from the body into the world. */
  function Turned(q: Quat, v: Vec3): Quat {
    QuatProduct(QuatProduct(q, Pure(v)), Conjugate(q))
  }

  function Apply(m: Mat3, v: Vec3): Vec3 {
    Vec3(
      Dot(m.m00, m.m01, m.m02, v.x, v.y, v.z),
      Dot(m.m10, m.m11, m.m12, v.x, v.y, v.z),
      Dot(m.m20, m.m21, m.m22, v.x, v.y, v.z))
  }

  // One component; the other two rotate (x, y, z) and (a, b, c).

  lemma TurnedComponent(
    w: real, x: real, y: real, z: real, a: real, b: real, c: real,
    s: real, t: real, u: real, v: real, d: real, e: real, f: real)
    requires s == -(x * a + y * b + z * c) && t == w * a + (y * c - z * b)
    requires u == w * b + (z * a - x * c) && v == w * c + (x * b - y * a)
    requires d == w * w + x * x - y * y - z * z && e == 2.0 * (y * x - w * z) && f == 2.0 * (z * x + w * y)
    ensures s * -x + w * t + (u * -z - v * -y) == d * a + e * b + f * c
  {
  }

  lemma TurnedScalar(
    w: real, x: real, y: real, z: real, a: real, b: real, c: real, s: real, t: real, u: real, v: real)
    requires s == -(x * a + y * b + z * c) && t == w * a + (y * c - z * b)
    requires u == w * b + (z * a - x * c) && v == w * c + (x * b - y * a)
    ensures s * w - (t * -x + u * -y + v * -z) == 0.0
  {
  }

  lemma TurnedRow(
    w: real, x: real, y: real, z: real, a: real, b: real, c: real, s: real, t: real, u: real, v: real)
    requires s == ScalarPart(w, x, y, z, 0.0, a, b, c) && t == VectorPart(w, x, y, z, 0.0, a, b, c)
    requires u == VectorPart(w, y, z, x, 0.0, b, c, a) && v == VectorPart(w, z, x, y, 0.0, c, a, b)
    ensures ScalarPart(s, t, u, v, w, -x, -y, -z) == 0.0
    ensures VectorPart(s, t, u, v, w, -x, -y, -z)
            == Dot(Diagonal(w, x, y, z), Below(w, y, z, x), Above(w, z, x, y), a, b, c)
  {
    TurnedScalar(w, x, y, z, a, b, c, s, t, u, v);
    TurnedComponent(
      w, x, y, z, a, b, c, s, t, u, v, Diagonal(w, x, y, z), Below(w, y, z, x), Above(w, z, x, y));
  }

  /** The transposed matrix of a unit quaternion turns every vector as the quaternion does. */
  lemma MatrixTurns(q: Quat, v: Vec3)
    requires Unit(q)
    ensures Turned(q, v) == Pure(Apply(Transpose(QuaternionToRotationMatrix(q)), v))
  {
    hide QuaternionToRotationMatrix, VectorPart, ScalarPart, Dot, Diagonal, Above, Below, SumSq;
    UnitIsHomogeneous(q);
    var p := QuatProduct(q, Pure(v));
    ScalarPartRotates(q.w, q.x, q.y, q.z, 0.0, v.x, v.y, v.z);
    TurnedRow(q.w, q.x, q.y, q.z, v.x, v.y, v.z, p.w, p.x, p.y, p.z);
    TurnedRow(q.w, q.y, q.z, q.x, v.y, v.z, v.x, p.w, p.y, p.z, p.x);
    TurnedRow(q.w, q.z, q.x, q.y, v.z, v.x, v.y, p.w, p.z, p.x, p.y);
    var h := Homogeneous(q);
    DotRotates(h.m01, h.m11, h.m21, v.x, v.y, v.z);
    DotRotates(h.m02, h.m12, h.m22, v.x, v.y, v.z);
  }

  // ----- The body's vertical axis -----

  const UP := Vec3(0.0, 0.0, 1.0)

  /** How far the body is tilted: 0 upright, 1/2 on its side, 1 upside down. */
  function Tilt(q: Quat): real {
    q.x * q.x + q.y * q.y
  }

  /** The lower right entry of the matrix is the height of the body's vertical axis in the world. */
  lemma VerticalAxis(q: Quat)
    ensures QuaternionToRotationMatrix(q).m22 == 1.0 - 2.0 * Tilt(q)
    ensures Unit(q) ==> Turned(q, UP).z == 1.0 - 2.0 * Tilt(q) && 0.0 <= Tilt(q) <= 1.0
  {
    var m := QuaternionToRotationMatrix(q);
    assert m.m22 == OneMinus(q.x, q.y);
    TiltIs(q);
    if Unit(q) {
      TiltBounds(q.w, q.x, q.y, q.z);
      hide QuaternionToRotationMatrix, QuatProduct, Tilt, SumSq, OneMinus, Dot;
      MatrixTurns(q, UP);
      DotUp(m.m02, m.m12, m.m22);
    }
  }

  lemma TiltIs(q: Quat)
    ensures OneMinus(q.x, q.y) == 1.0 - 2.0 * Tilt(q)
  {
  }

  lemma DotUp(a: real, b: real, c: real)
    ensures Dot(a, b, c, 0.0, 0.0, 1.0) == c
  {
  }

  lemma TiltBounds(w: real, x: real, y: real, z: real)
    requires SumSq(w, x, y, z) == 1.0
    ensures 0.0 <= x * x + y * y <= 1.0
  {
    assert w * w >= 0.0 && x * x >= 0.0 && y * y >= 0.0 && z * z >= 0.0;
  }
}
