/**
 The rate of change of an orientation quaternion under an angular velocity in the body frame,
 with the term that pulls its length back to 1. Square roots are a parameter, right at the two
 arguments the code passes.
 */
module QuaternionRate {
  import opened Arithmetic
  import opened Orientation

  const STABILIZATION := 0.1

  function VecSq(v: Vec3): real {
    Dot(v.x, v.y, v.z, v.x, v.y, v.z)
  }

  /** The velocity as a quaternion: its scalar part is the correction. */
  function Velocity(q: Quat, omega: Vec3, sqrt: real -> real): Quat {
    Quat(STABILIZATION * sqrt(VecSq(omega)) * (1.0 - sqrt(NormSq(q))), omega.x, omega.y, omega.z)
  }

  function Row(a: real, b: real, c: real, d: real, v: Quat): real {
    a * v.w + b * v.x + c * v.y + d * v.z
  }

  /** Half the code's 4x4 matrix times the velocity. */
  function QuatDerivative(q: Quat, omega: Vec3, sqrt: real -> real): Quat {
    var v := Velocity(q, omega, sqrt);
    Quat(
      0.5 * Row(q.w, -q.x, -q.y, -q.z, v),
      0.5 * Row(q.x, q.w, -q.z, q.y, v),
      0.5 * Row(q.y, q.z, q.w, -q.x, v),
      0.5 * Row(q.z, -q.y, q.x, q.w, v))
  }

  function Half(q: Quat): Quat {
    Quat(0.5 * q.w, 0.5 * q.x, 0.5 * q.y, 0.5 * q.z)
  }

  lemma RowIsPart(w1: real, x1: real, y1: real, z1: real, v: Quat)
    ensures Row(w1, -x1, -y1, -z1, v) == ScalarPart(w1, x1, y1, z1, v.w, v.x, v.y, v.z)
    ensures Row(x1, w1, -z1, y1, v) == VectorPart(w1, x1, y1, z1, v.w, v.x, v.y, v.z)
    ensures Row(y1, z1, w1, -x1, v) == VectorPart(w1, y1, z1, x1, v.w, v.y, v.z, v.x)
    ensures Row(z1, -y1, x1, w1, v) == VectorPart(w1, z1, x1, y1, v.w, v.z, v.x, v.y)
  {
  }

  /** The matrix form is half the quaternion product with the velocity. */
  lemma DerivativeIsHalfProduct(q: Quat, omega: Vec3, sqrt: real -> real)
    ensures QuatDerivative(q, omega, sqrt) == Half(QuatProduct(q, Velocity(q, omega, sqrt)))
  {
    RowIsPart(q.w, q.x, q.y, q.z, Velocity(q, omega, sqrt));
    hide Row, ScalarPart, VectorPart, Velocity;
  }

  /** The derivative of the squared length along dq: the coefficient of t in the square of q + t*dq. */
  function LengthRate(q: Quat, dq: Quat): real {
    2.0 * Row(q.w, q.x, q.y, q.z, dq)
  }

  lemma RateOfProduct(w1: real, x1: real, y1: real, z1: real, w2: real, x2: real, y2: real, z2: real)
    ensures w1 * ScalarPart(w1, x1, y1, z1, w2, x2, y2, z2) + x1 * VectorPart(w1, x1, y1, z1, w2, x2, y2, z2)
            + y1 * VectorPart(w1, y1, z1, x1, w2, y2, z2, x2) + z1 * VectorPart(w1, z1, x1, y1, w2, z2, x2, y2)
            == SumSq(w1, x1, y1, z1) * w2
  {
    RawRate(
      w1, x1, y1, z1, w2, x2, y2, z2,
      ScalarPart(w1, x1, y1, z1, w2, x2, y2, z2), VectorPart(w1, x1, y1, z1, w2, x2, y2, z2),
      VectorPart(w1, y1, z1, x1, w2, y2, z2, x2), VectorPart(w1, z1, x1, y1, w2, z2, x2, y2));
  }

  lemma RawRate(
    w1: real, x1: real, y1: real, z1: real, w2: real, x2: real, y2: real, z2: real,
    w: real, x: real, y: real, z: real)
    requires w == w1 * w2 - (x1 * x2 + y1 * y2 + z1 * z2) && x == w1 * x2 + w2 * x1 + (y1 * z2 - z1 * y2)
    requires y == w1 * y2 + w2 * y1 + (z1 * x2 - x1 * z2) && z == w1 * z2 + w2 * z1 + (x1 * y2 - y1 * x2)
    ensures w1 * w + x1 * x + y1 * y + z1 * z == (w1 * w1 + x1 * x1 + y1 * y1 + z1 * z1) * w2
  {
  }

  lemma RateOfHalf(q: Quat, p: Quat)
    ensures LengthRate(q, Half(p)) == Row(q.w, q.x, q.y, q.z, p)
  {
  }

  /** Only the correction changes the length: its rate is the squared length times the correction. */
  lemma LengthRateIsCorrection(q: Quat, omega: Vec3, sqrt: real -> real)
    ensures LengthRate(q, QuatDerivative(q, omega, sqrt)) == NormSq(q) * Velocity(q, omega, sqrt).w
  {
    var v := Velocity(q, omega, sqrt);
    DerivativeIsHalfProduct(q, omega, sqrt);
    RateOfHalf(q, QuatProduct(q, v));
    RateOfProduct(q.w, q.x, q.y, q.z, v.w, v.x, v.y, v.z);
    hide Velocity, LengthRate, QuatDerivative, Half, ScalarPart, VectorPart, SumSq;
  }

  function Moved(q: Quat, t: real, dq: Quat): Quat {
    Quat(q.w + t * dq.w, q.x + t * dq.x, q.y + t * dq.y, q.z + t * dq.z)
  }

  /** LengthRate is what its name says: the linear term of the squared length along dq. */
  lemma LengthAlong(q: Quat, t: real, dq: Quat)
    ensures NormSq(Moved(q, t, dq)) == NormSq(q) + t * LengthRate(q, dq) + (t * t) * NormSq(dq)
  {
    SquareAlong(q.w, q.x, q.y, q.z, t, dq.w, dq.x, dq.y, dq.z);
  }

  lemma SquareAlong(w: real, x: real, y: real, z: real, t: real, a: real, b: real, c: real, d: real)
    ensures (w + t * a) * (w + t * a) + (x + t * b) * (x + t * b) + (y + t * c) * (y + t * c)
            + (z + t * d) * (z + t * d)
            == (w * w + x * x + y * y + z * z) + t * (2.0 * (w * a + x * b + y * c + z * d))
               + (t * t) * (a * a + b * b + c * c + d * d)
  {
  }

  lemma SquareSign(s: real, x: real)
    requires s >= 0.0 && Times(s, s) == x
    ensures (x == 0.0 <==> s == 0.0) && (x > 1.0 <==> s > 1.0) && (x < 1.0 <==> s < 1.0)
  {
    Units(s);
    hide Times;
    if s <= 1.0 {
      ScalesUp(s, s, 1.0);
      if s > 0.0 {
        Grows(s, 0.0, s);
      }
    } else {
      ScalesUp(s, 1.0, s);
    }
  }

  lemma ProductSign(n: real, k: real, d: real)
    requires n >= 0.0 && k >= 0.0
    ensures n * (STABILIZATION * k * d) > 0.0 <==> n > 0.0 && k > 0.0 && d > 0.0
    ensures n * (STABILIZATION * k * d) < 0.0 <==> n > 0.0 && k > 0.0 && d < 0.0
  {
    assert n * (STABILIZATION * k * d) == STABILIZATION * ((n * k) * d);
    if n > 0.0 && k > 0.0 {
      assert n * k > 0.0;
    }
  }

  /**
   The length is pulled towards 1 and nowhere else: it grows exactly while the robot turns and
   0 < |q| < 1, and shrinks exactly while the robot turns and |q| > 1.
   */
  lemma LengthSettles(q: Quat, omega: Vec3, sqrt: real -> real)
    requires RootAt(sqrt, NormSq(q)) && RootAt(sqrt, VecSq(omega))
    ensures LengthRate(q, QuatDerivative(q, omega, sqrt)) > 0.0 <==> VecSq(omega) > 0.0 && 0.0 < NormSq(q) < 1.0
    ensures LengthRate(q, QuatDerivative(q, omega, sqrt)) < 0.0 <==> VecSq(omega) > 0.0 && NormSq(q) > 1.0
  {
    LengthRateIsCorrection(q, omega, sqrt);
    var (n, k) := (sqrt(NormSq(q)), sqrt(VecSq(omega)));
    assert LengthRate(q, QuatDerivative(q, omega, sqrt)) == NormSq(q) * (STABILIZATION * k * (1.0 - n));
    SquareNonNegative(q);
    hide *;
    SquareSign(n, NormSq(q));
    SquareSign(k, VecSq(omega));
    ProductSign(NormSq(q), k, 1.0 - n);
  }

  lemma SquareNonNegative(q: Quat)
    ensures NormSq(q) >= 0.0
  {
  }

  /** At length 1 there is nothing to correct: half the product with the angular velocity alone. */
  lemma UnitDerivative(q: Quat, omega: Vec3, sqrt: real -> real)
    requires Unit(q) && RootAt(sqrt, 1.0)
    ensures QuatDerivative(q, omega, sqrt) == Half(QuatProduct(q, Quat(0.0, omega.x, omega.y, omega.z)))
  {
    DerivativeIsHalfProduct(q, omega, sqrt);
    SquareSign(sqrt(1.0), 1.0);
    NoCorrection(sqrt(VecSq(omega)), 1.0 - sqrt(NormSq(q)));
    hide QuatDerivative, QuatProduct, Half, VecSq, NormSq;
  }

  lemma NoCorrection(k: real, d: real)
    requires d == 0.0
    ensures STABILIZATION * k * d == 0.0
  {
  }
}
