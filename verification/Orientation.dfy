/**
 Quaternions and rotation matrices over exact reals. A quaternion is (w, x, y, z); a matrix is
 given by its rows. Square roots are a parameter: each lemma asks of it only that it is right at
 the one argument the code passes.
 */
module Orientation {
  import opened Arithmetic

  datatype Quat = Quat(w: real, x: real, y: real, z: real)

  datatype Vec3 = Vec3(x: real, y: real, z: real)

  datatype Mat3 = Mat3(
    m00: real, m01: real, m02: real,
    m10: real, m11: real, m12: real,
    m20: real, m21: real, m22: real)

  function Transpose(a: Mat3): Mat3 {
    Mat3(a.m00, a.m10, a.m20, a.m01, a.m11, a.m21, a.m02, a.m12, a.m22)
  }

  function Dot(a: real, b: real, c: real, d: real, e: real, f: real): real {
    a * d + b * e + c * f
  }

  function MatMul(a: Mat3, b: Mat3): Mat3 {
    Mat3(
      Dot(a.m00, a.m01, a.m02, b.m00, b.m10, b.m20),
      Dot(a.m00, a.m01, a.m02, b.m01, b.m11, b.m21),
      Dot(a.m00, a.m01, a.m02, b.m02, b.m12, b.m22),
      Dot(a.m10, a.m11, a.m12, b.m00, b.m10, b.m20),
      Dot(a.m10, a.m11, a.m12, b.m01, b.m11, b.m21),
      Dot(a.m10, a.m11, a.m12, b.m02, b.m12, b.m22),
      Dot(a.m20, a.m21, a.m22, b.m00, b.m10, b.m20),
      Dot(a.m20, a.m21, a.m22, b.m01, b.m11, b.m21),
      Dot(a.m20, a.m21, a.m22, b.m02, b.m12, b.m22))
  }

  const IDENTITY := Mat3(1.0, 0.0, 0.0, 0.0, 1.0, 0.0, 0.0, 0.0, 1.0)

  function Minor(a: real, b: real, c: real, d: real): real {
    a * d - b * c
  }

  /** Expansion along the first row; the middle cofactor's sign is in the order of its columns. */
  function Det(a: Mat3): real {
    Dot(a.m00, a.m01, a.m02,
        Minor(a.m11, a.m12, a.m21, a.m22), Minor(a.m12, a.m10, a.m22, a.m20), Minor(a.m10, a.m11, a.m20, a.m21))
  }

  function SumSq(w: real, x: real, y: real, z: real): real {
    w * w + x * x + y * y + z * z
  }

  function NormSq(q: Quat): real {
    SumSq(q.w, q.x, q.y, q.z)
  }

  predicate Unit(q: Quat) {
    NormSq(q) == 1.0
  }

  function Negate(q: Quat): Quat {
    Quat(-q.w, -q.x, -q.y, -q.z)
  }

  /** r1*r2 - v1.v2 */
  function ScalarPart(
    w1: real, x1: real, y1: real, z1: real, w2: real, x2: real, y2: real, z2: real): real
  {
    w1 * w2 - (x1 * x2 + y1 * y2 + z1 * z2)
  }

  /** The first component of r1*v2 + r2*v1 + v1 x v2; the others rotate (x, y, z). */
  function VectorPart(
    w1: real, x1: real, y1: real, z1: real, w2: real, x2: real, y2: real, z2: real): real
  {
    w1 * x2 + w2 * x1 + (y1 * z2 - z1 * y2)
  }

  function QuatProduct(q1: Quat, q2: Quat): Quat {
    Quat(
      ScalarPart(q1.w, q1.x, q1.y, q1.z, q2.w, q2.x, q2.y, q2.z),
      VectorPart(q1.w, q1.x, q1.y, q1.z, q2.w, q2.x, q2.y, q2.z),
      VectorPart(q1.w, q1.y, q1.z, q1.x, q2.w, q2.y, q2.z, q2.x),
      VectorPart(q1.w, q1.z, q1.x, q1.y, q2.w, q2.z, q2.x, q2.y))
  }

  function OneMinus(a: real, b: real): real {
    1.0 - 2.0 * (a * a + b * b)
  }

  function TwicePlus(a: real, b: real, c: real, d: real): real {
    2.0 * (a * b + c * d)
  }

  function TwiceMinus(a: real, b: real, c: real, d: real): real {
    2.0 * (a * b - c * d)
  }

  /** The matrix as written, then transposed in place: a coordinate transformation into the body frame. */
  function QuaternionToRotationMatrix(q: Quat): Mat3 {
    var (e0, e1, e2, e3) := (q.w, q.x, q.y, q.z);
    Transpose(Mat3(
      OneMinus(e2, e3), TwiceMinus(e1, e2, e0, e3), TwicePlus(e1, e3, e0, e2),
      TwicePlus(e1, e2, e0, e3), OneMinus(e1, e3), TwiceMinus(e2, e3, e0, e1),
      TwiceMinus(e1, e3, e0, e2), TwicePlus(e2, e3, e0, e1), OneMinus(e1, e2)))
  }

  /** A square root, right at one argument. */
  predicate RootAt(sqrt: real -> real, x: real) {
    sqrt(x) >= 0.0 && Times(sqrt(x), sqrt(x)) == x
  }

  // ----- The matrix laws -----

  // The first row of the rotation matrix of a unit quaternion, written without using its length.
  // The other two rows are the same functions with (x, y, z) rotated.

  function Diagonal(w: real, x: real, y: real, z: real): real {
    w * w + x * x - y * y - z * z
  }

  function Above(w: real, x: real, y: real, z: real): real {
    2.0 * (x * y + w * z)
  }

  function Below(w: real, x: real, y: real, z: real): real {
    2.0 * (x * z - w * y)
  }

  function Homogeneous(q: Quat): Mat3 {
    Mat3(
      Diagonal(q.w, q.x, q.y, q.z), Above(q.w, q.x, q.y, q.z), Below(q.w, q.x, q.y, q.z),
      Below(q.w, q.y, q.z, q.x), Diagonal(q.w, q.y, q.z, q.x), Above(q.w, q.y, q.z, q.x),
      Above(q.w, q.z, q.x, q.y), Below(q.w, q.z, q.x, q.y), Diagonal(q.w, q.z, q.x, q.y))
  }

  function Scaled(s: real): Mat3 {
    Mat3(s, 0.0, 0.0, 0.0, s, 0.0, 0.0, 0.0, s)
  }

  lemma UnitEntry(w: real, x: real, y: real, z: real)
    requires SumSq(w, x, y, z) == 1.0
    ensures OneMinus(y, z) == OneMinus(z, y) == Diagonal(w, x, y, z)
  {
  }

  lemma OtherEntries(w: real, x: real, y: real, z: real)
    ensures TwicePlus(x, y, w, z) == TwicePlus(y, x, w, z) == Above(w, x, y, z)
    ensures TwiceMinus(x, z, w, y) == TwiceMinus(z, x, w, y) == Below(w, x, y, z)
  {
  }

  /** For a unit quaternion the code's matrix is the homogeneous one. */
  lemma UnitIsHomogeneous(q: Quat)
    requires Unit(q)
    ensures QuaternionToRotationMatrix(q) == Homogeneous(q)
  {
    hide SumSq, Diagonal, Above, Below, OneMinus, TwicePlus, TwiceMinus;
    SumSqRotates(q.w, q.x, q.y, q.z);
    UnitEntry(q.w, q.x, q.y, q.z);
    UnitEntry(q.w, q.y, q.z, q.x);
    UnitEntry(q.w, q.z, q.x, q.y);
    OtherEntries(q.w, q.x, q.y, q.z);
    OtherEntries(q.w, q.y, q.z, q.x);
    OtherEntries(q.w, q.z, q.x, q.y);
  }

  lemma DotRotates(a: real, b: real, c: real, d: real, e: real, f: real)
    ensures Dot(a, b, c, d, e, f) == Dot(b, c, a, e, f, d) == Dot(c, a, b, f, d, e)
    ensures Dot(a, b, c, d, e, f) == Dot(d, e, f, a, b, c) == Dot(e, f, d, b, c, a) == Dot(f, d, e, c, a, b)
  {
  }

  lemma SumSqRotates(w: real, x: real, y: real, z: real)
    ensures SumSq(w, x, y, z) == SumSq(w, y, z, x) == SumSq(w, z, x, y)
  {
  }

  lemma RowSquare(w: real, x: real, y: real, z: real)
    ensures var (a, b, c) := (Diagonal(w, x, y, z), Above(w, x, y, z), Below(w, x, y, z));
      Dot(a, b, c, a, b, c) == SumSq(w, x, y, z) * SumSq(w, x, y, z)
  {
  }

  lemma RowsOrthogonal(w: real, x: real, y: real, z: real)
    ensures Dot(Diagonal(w, x, y, z), Above(w, x, y, z), Below(w, x, y, z),
                Below(w, y, z, x), Diagonal(w, y, z, x), Above(w, y, z, x)) == 0.0
  {
  }

  lemma HomogeneousRows(q: Quat)
    ensures MatMul(Homogeneous(q), Transpose(Homogeneous(q))) == Scaled(NormSq(q) * NormSq(q))
  {
    hide Diagonal, Above, Below, SumSq, Dot;
    var h := Homogeneous(q);
    SumSqRotates(q.w, q.x, q.y, q.z);
    RowSquare(q.w, q.x, q.y, q.z);
    RowSquare(q.w, q.y, q.z, q.x);
    RowSquare(q.w, q.z, q.x, q.y);
    RowsOrthogonal(q.w, q.x, q.y, q.z);
    RowsOrthogonal(q.w, q.y, q.z, q.x);
    RowsOrthogonal(q.w, q.z, q.x, q.y);
    DotRotates(h.m10, h.m11, h.m12, h.m10, h.m11, h.m12);
    DotRotates(h.m20, h.m21, h.m22, h.m20, h.m21, h.m22);
    DotRotates(h.m00, h.m01, h.m02, h.m10, h.m11, h.m12);
    DotRotates(h.m10, h.m11, h.m12, h.m20, h.m21, h.m22);
    DotRotates(h.m20, h.m21, h.m22, h.m00, h.m01, h.m02);
  }

  function Conjugate(q: Quat): Quat {
    Quat(q.w, -q.x, -q.y, -q.z)
  }

  lemma ConjugateEntries(w: real, x: real, y: real, z: real)
    ensures Diagonal(w, -x, -y, -z) == Diagonal(w, x, y, z) && SumSq(w, -x, -y, -z) == SumSq(w, x, y, z)
    ensures Above(w, -x, -y, -z) == Below(w, y, z, x) && Below(w, -y, -z, -x) == Above(w, x, y, z)
  {
  }

  /** Reversing the axis transposes, that is inverts, the rotation. */
  lemma ConjugateTransposes(q: Quat)
    ensures Homogeneous(Conjugate(q)) == Transpose(Homogeneous(q)) && NormSq(Conjugate(q)) == NormSq(q)
  {
    hide Diagonal, Above, Below, SumSq;
    ConjugateEntries(q.w, q.x, q.y, q.z);
    ConjugateEntries(q.w, q.y, q.z, q.x);
    ConjugateEntries(q.w, q.z, q.x, q.y);
  }

  lemma HomogeneousColumns(q: Quat)
    ensures MatMul(Transpose(Homogeneous(q)), Homogeneous(q)) == Scaled(NormSq(q) * NormSq(q))
  {
    hide MatMul, Homogeneous, NormSq;
    ConjugateTransposes(q);
    HomogeneousRows(Conjugate(q));
  }

  /** The cofactors of the first row are that row again, times the squared length. */
  lemma DiagonalCofactor(w: real, x: real, y: real, z: real)
    ensures Minor(Diagonal(w, y, z, x), Above(w, y, z, x), Below(w, z, x, y), Diagonal(w, z, x, y))
            == SumSq(w, x, y, z) * Diagonal(w, x, y, z)
  {
    RawDiagonalCofactor(
      w, x, y, z, Diagonal(w, y, z, x), Above(w, y, z, x), Below(w, z, x, y), Diagonal(w, z, x, y),
      SumSq(w, x, y, z), Diagonal(w, x, y, z));
    hide Diagonal, Above, Below, SumSq;
  }

  lemma RawDiagonalCofactor(
    w: real, x: real, y: real, z: real, a: real, b: real, c: real, d: real, n: real, m: real)
    requires a == w * w + y * y - z * z - x * x && b == 2.0 * (y * z + w * x)
    requires c == 2.0 * (z * y - w * x) && d == w * w + z * z - x * x - y * y
    requires n == w * w + x * x + y * y + z * z && m == w * w + x * x - y * y - z * z
    ensures a * d - b * c == n * m
  {
  }

  lemma AboveCofactor(w: real, x: real, y: real, z: real)
    ensures Minor(Above(w, y, z, x), Below(w, y, z, x), Diagonal(w, z, x, y), Above(w, z, x, y))
            == SumSq(w, x, y, z) * Above(w, x, y, z)
  {
    RawAboveCofactor(
      w, x, y, z, Above(w, y, z, x), Below(w, y, z, x), Diagonal(w, z, x, y), Above(w, z, x, y),
      SumSq(w, x, y, z), Above(w, x, y, z));
    hide Diagonal, Above, Below, SumSq;
  }

  lemma RawAboveCofactor(
    w: real, x: real, y: real, z: real, a: real, b: real, c: real, d: real, n: real, m: real)
    requires a == 2.0 * (y * z + w * x) && b == 2.0 * (y * x - w * z)
    requires c == w * w + z * z - x * x - y * y && d == 2.0 * (z * x + w * y)
    requires n == w * w + x * x + y * y + z * z && m == 2.0 * (x * y + w * z)
    ensures a * d - b * c == n * m
  {
  }

  lemma BelowCofactor(w: real, x: real, y: real, z: real)
    ensures Minor(Below(w, y, z, x), Diagonal(w, y, z, x), Above(w, z, x, y), Below(w, z, x, y))
            == SumSq(w, x, y, z) * Below(w, x, y, z)
  {
    RawBelowCofactor(
      w, x, y, z, Below(w, y, z, x), Diagonal(w, y, z, x), Above(w, z, x, y), Below(w, z, x, y),
      SumSq(w, x, y, z), Below(w, x, y, z));
    hide Diagonal, Above, Below, SumSq;
  }

  lemma RawBelowCofactor(
    w: real, x: real, y: real, z: real, a: real, b: real, c: real, d: real, n: real, m: real)
    requires a == 2.0 * (y * x - w * z) && b == w * w + y * y - z * z - x * x
    requires c == 2.0 * (z * x + w * y) && d == 2.0 * (z * y - w * x)
    requires n == w * w + x * x + y * y + z * z && m == 2.0 * (x * z - w * y)
    ensures a * d - b * c == n * m
  {
  }

  lemma DotScales(a: real, b: real, c: real, d: real, e: real, f: real, n: real)
    ensures Dot(a, b, c, n * d, n * e, n * f) == n * Dot(a, b, c, d, e, f)
  {
  }

  lemma HomogeneousDet(q: Quat)
    ensures Det(Homogeneous(q)) == NormSq(q) * (NormSq(q) * NormSq(q))
  {
    hide Diagonal, Above, Below, SumSq, Dot, Minor;
    var h := Homogeneous(q);
    DiagonalCofactor(q.w, q.x, q.y, q.z);
    AboveCofactor(q.w, q.x, q.y, q.z);
    BelowCofactor(q.w, q.x, q.y, q.z);
    RowSquare(q.w, q.x, q.y, q.z);
    var n := SumSq(q.w, q.x, q.y, q.z);
    DotScales(h.m00, h.m01, h.m02, h.m00, h.m01, h.m02, n);
    assert Minor(h.m11, h.m12, h.m21, h.m22) == n * h.m00;
    assert Minor(h.m12, h.m10, h.m22, h.m20) == n * h.m01;
    assert Minor(h.m10, h.m11, h.m20, h.m21) == n * h.m02;
    assert Det(h) == Dot(h.m00, h.m01, h.m02, n * h.m00, n * h.m01, n * h.m02);
  }

  /** Unit quaternions give proper rotations. */
  lemma UnitGivesRotation(q: Quat)
    requires Unit(q)
    ensures Rotation(QuaternionToRotationMatrix(q))
  {
    UnitIsHomogeneous(q);
    hide Homogeneous, MatMul, Det, NormSq;
    HomogeneousRows(q);
    HomogeneousColumns(q);
    HomogeneousDet(q);
  }

  predicate Rotation(r: Mat3) {
    MatMul(r, Transpose(r)) == IDENTITY && MatMul(Transpose(r), r) == IDENTITY && Det(r) == 1.0
  }

  // ----- Products -----

  lemma FourSquares(
    w1: real, x1: real, y1: real, z1: real, w2: real, x2: real, y2: real, z2: real,
    w: real, x: real, y: real, z: real, m: real, n: real)
    requires w == w1 * w2 - (x1 * x2 + y1 * y2 + z1 * z2) && x == w1 * x2 + w2 * x1 + (y1 * z2 - z1 * y2)
    requires y == w1 * y2 + w2 * y1 + (z1 * x2 - x1 * z2) && z == w1 * z2 + w2 * z1 + (x1 * y2 - y1 * x2)
    requires m == w1 * w1 + x1 * x1 + y1 * y1 + z1 * z1 && n == w2 * w2 + x2 * x2 + y2 * y2 + z2 * z2
    ensures w * w + x * x + y * y + z * z == m * n
  {
  }

  /** The length of a product is the product of the lengths. */
  lemma NormMultiplies(q1: Quat, q2: Quat)
    ensures NormSq(QuatProduct(q1, q2)) == NormSq(q1) * NormSq(q2)
  {
    var (w1, x1, y1, z1, w2, x2, y2, z2) := (q1.w, q1.x, q1.y, q1.z, q2.w, q2.x, q2.y, q2.z);
    ProductSumSq(
      w1, x1, y1, z1, w2, x2, y2, z2,
      ScalarPart(w1, x1, y1, z1, w2, x2, y2, z2), VectorPart(w1, x1, y1, z1, w2, x2, y2, z2),
      VectorPart(w1, y1, z1, x1, w2, y2, z2, x2), VectorPart(w1, z1, x1, y1, w2, z2, x2, y2));
    hide SumSq, ScalarPart, VectorPart;
  }

  lemma ProductSumSq(
    w1: real, x1: real, y1: real, z1: real, w2: real, x2: real, y2: real, z2: real,
    w: real, x: real, y: real, z: real)
    requires w == ScalarPart(w1, x1, y1, z1, w2, x2, y2, z2) && x == VectorPart(w1, x1, y1, z1, w2, x2, y2, z2)
    requires y == VectorPart(w1, y1, z1, x1, w2, y2, z2, x2) && z == VectorPart(w1, z1, x1, y1, w2, z2, x2, y2)
    ensures SumSq(w, x, y, z) == SumSq(w1, x1, y1, z1) * SumSq(w2, x2, y2, z2)
  {
    FourSquares(
      w1, x1, y1, z1, w2, x2, y2, z2, w, x, y, z, SumSq(w1, x1, y1, z1), SumSq(w2, x2, y2, z2));
  }

  lemma ScalarPartRotates(
    w1: real, x1: real, y1: real, z1: real, w2: real, x2: real, y2: real, z2: real)
    ensures ScalarPart(w1, x1, y1, z1, w2, x2, y2, z2) == ScalarPart(w1, y1, z1, x1, w2, y2, z2, x2)
            == ScalarPart(w1, z1, x1, y1, w2, z2, x2, y2)
  {
  }

  lemma ExpandedDiagonal(
    w1: real, x1: real, y1: real, z1: real, w2: real, x2: real, y2: real, z2: real,
    w: real, x: real, y: real, z: real)
    requires w == w1 * w2 - (x1 * x2 + y1 * y2 + z1 * z2) && x == w1 * x2 + w2 * x1 + (y1 * z2 - z1 * y2)
    requires y == w1 * y2 + w2 * y1 + (z1 * x2 - x1 * z2) && z == w1 * z2 + w2 * z1 + (x1 * y2 - y1 * x2)
    ensures w * w + x * x - y * y - z * z
            == (w2 * w2 + x2 * x2 - y2 * y2 - z2 * z2) * (w1 * w1 + x1 * x1 - y1 * y1 - z1 * z1)
               + (2.0 * (x2 * y2 + w2 * z2)) * (2.0 * (y1 * x1 - w1 * z1))
               + (2.0 * (x2 * z2 - w2 * y2)) * (2.0 * (z1 * x1 + w1 * y1))
  {
  }

  lemma FirstOfDiagonal(
    w1: real, x1: real, y1: real, z1: real, w2: real, x2: real, y2: real, z2: real,
    a: real, d: real)
    requires a == w2 * w2 + x2 * x2 - y2 * y2 - z2 * z2 && d == w1 * w1 + x1 * x1 - y1 * y1 - z1 * z1
    ensures a * d == (w2 * w2 + x2 * x2 - y2 * y2 - z2 * z2) * (w1 * w1 + x1 * x1 - y1 * y1 - z1 * z1)
  {
  }

  lemma SecondOfDiagonal(
    w1: real, x1: real, y1: real, z1: real, w2: real, x2: real, y2: real, z2: real,
    b: real, e: real)
    requires b == 2.0 * (x2 * y2 + w2 * z2) && e == 2.0 * (y1 * x1 - w1 * z1)
    ensures b * e == (2.0 * (x2 * y2 + w2 * z2)) * (2.0 * (y1 * x1 - w1 * z1))
  {
  }

  lemma ThirdOfDiagonal(
    w1: real, x1: real, y1: real, z1: real, w2: real, x2: real, y2: real, z2: real,
    c: real, f: real)
    requires c == 2.0 * (x2 * z2 - w2 * y2) && f == 2.0 * (z1 * x1 + w1 * y1)
    ensures c * f == (2.0 * (x2 * z2 - w2 * y2)) * (2.0 * (z1 * x1 + w1 * y1))
  {
  }

  lemma RawProductDiagonal(
    w1: real, x1: real, y1: real, z1: real, w2: real, x2: real, y2: real, z2: real,
    w: real, x: real, y: real, z: real,
    a: real, b: real, c: real, d: real, e: real, f: real)
    requires w == w1 * w2 - (x1 * x2 + y1 * y2 + z1 * z2) && x == w1 * x2 + w2 * x1 + (y1 * z2 - z1 * y2)
    requires y == w1 * y2 + w2 * y1 + (z1 * x2 - x1 * z2) && z == w1 * z2 + w2 * z1 + (x1 * y2 - y1 * x2)
    requires a == w2 * w2 + x2 * x2 - y2 * y2 - z2 * z2 && b == 2.0 * (x2 * y2 + w2 * z2)
            && c == 2.0 * (x2 * z2 - w2 * y2)
    requires d == w1 * w1 + x1 * x1 - y1 * y1 - z1 * z1 && e == 2.0 * (y1 * x1 - w1 * z1)
            && f == 2.0 * (z1 * x1 + w1 * y1)
    ensures w * w + x * x - y * y - z * z == a * d + b * e + c * f
  {
    ExpandedDiagonal(w1, x1, y1, z1, w2, x2, y2, z2, w, x, y, z);
    FirstOfDiagonal(w1, x1, y1, z1, w2, x2, y2, z2, a, d);
    SecondOfDiagonal(w1, x1, y1, z1, w2, x2, y2, z2, b, e);
    ThirdOfDiagonal(w1, x1, y1, z1, w2, x2, y2, z2, c, f);
  }

  lemma ExpandedAbove(
    w1: real, x1: real, y1: real, z1: real, w2: real, x2: real, y2: real, z2: real,
    w: real, x: real, y: real, z: real)
    requires w == w1 * w2 - (x1 * x2 + y1 * y2 + z1 * z2) && x == w1 * x2 + w2 * x1 + (y1 * z2 - z1 * y2)
    requires y == w1 * y2 + w2 * y1 + (z1 * x2 - x1 * z2) && z == w1 * z2 + w2 * z1 + (x1 * y2 - y1 * x2)
    ensures 2.0 * (x * y + w * z)
            == (w2 * w2 + x2 * x2 - y2 * y2 - z2 * z2) * (2.0 * (x1 * y1 + w1 * z1))
               + (2.0 * (x2 * y2 + w2 * z2)) * (w1 * w1 + y1 * y1 - z1 * z1 - x1 * x1)
               + (2.0 * (x2 * z2 - w2 * y2)) * (2.0 * (z1 * y1 - w1 * x1))
  {
  }

  lemma FirstOfAbove(
    w1: real, x1: real, y1: real, z1: real, w2: real, x2: real, y2: real, z2: real,
    a: real, d: real)
    requires a == w2 * w2 + x2 * x2 - y2 * y2 - z2 * z2 && d == 2.0 * (x1 * y1 + w1 * z1)
    ensures a * d == (w2 * w2 + x2 * x2 - y2 * y2 - z2 * z2) * (2.0 * (x1 * y1 + w1 * z1))
  {
  }

  lemma SecondOfAbove(
    w1: real, x1: real, y1: real, z1: real, w2: real, x2: real, y2: real, z2: real,
    b: real, e: real)
    requires b == 2.0 * (x2 * y2 + w2 * z2) && e == w1 * w1 + y1 * y1 - z1 * z1 - x1 * x1
    ensures b * e == (2.0 * (x2 * y2 + w2 * z2)) * (w1 * w1 + y1 * y1 - z1 * z1 - x1 * x1)
  {
  }

  lemma ThirdOfAbove(
    w1: real, x1: real, y1: real, z1: real, w2: real, x2: real, y2: real, z2: real,
    c: real, f: real)
    requires c == 2.0 * (x2 * z2 - w2 * y2) && f == 2.0 * (z1 * y1 - w1 * x1)
    ensures c * f == (2.0 * (x2 * z2 - w2 * y2)) * (2.0 * (z1 * y1 - w1 * x1))
  {
  }

  lemma RawProductAbove(
    w1: real, x1: real, y1: real, z1: real, w2: real, x2: real, y2: real, z2: real,
    w: real, x: real, y: real, z: real,
    a: real, b: real, c: real, d: real, e: real, f: real)
    requires w == w1 * w2 - (x1 * x2 + y1 * y2 + z1 * z2) && x == w1 * x2 + w2 * x1 + (y1 * z2 - z1 * y2)
    requires y == w1 * y2 + w2 * y1 + (z1 * x2 - x1 * z2) && z == w1 * z2 + w2 * z1 + (x1 * y2 - y1 * x2)
    requires a == w2 * w2 + x2 * x2 - y2 * y2 - z2 * z2 && b == 2.0 * (x2 * y2 + w2 * z2)
            && c == 2.0 * (x2 * z2 - w2 * y2)
    requires d == 2.0 * (x1 * y1 + w1 * z1) && e == w1 * w1 + y1 * y1 - z1 * z1 - x1 * x1
            && f == 2.0 * (z1 * y1 - w1 * x1)
    ensures 2.0 * (x * y + w * z) == a * d + b * e + c * f
  {
    ExpandedAbove(w1, x1, y1, z1, w2, x2, y2, z2, w, x, y, z);
    FirstOfAbove(w1, x1, y1, z1, w2, x2, y2, z2, a, d);
    SecondOfAbove(w1, x1, y1, z1, w2, x2, y2, z2, b, e);
    ThirdOfAbove(w1, x1, y1, z1, w2, x2, y2, z2, c, f);
  }

  lemma ExpandedBelow(
    w1: real, x1: real, y1: real, z1: real, w2: real, x2: real, y2: real, z2: real,
    w: real, x: real, y: real, z: real)
    requires w == w1 * w2 - (x1 * x2 + y1 * y2 + z1 * z2) && x == w1 * x2 + w2 * x1 + (y1 * z2 - z1 * y2)
    requires y == w1 * y2 + w2 * y1 + (z1 * x2 - x1 * z2) && z == w1 * z2 + w2 * z1 + (x1 * y2 - y1 * x2)
    ensures 2.0 * (x * z - w * y)
            == (w2 * w2 + x2 * x2 - y2 * y2 - z2 * z2) * (2.0 * (x1 * z1 - w1 * y1))
               + (2.0 * (x2 * y2 + w2 * z2)) * (2.0 * (y1 * z1 + w1 * x1))
               + (2.0 * (x2 * z2 - w2 * y2)) * (w1 * w1 + z1 * z1 - x1 * x1 - y1 * y1)
  {
  }

  lemma FirstOfBelow(
    w1: real, x1: real, y1: real, z1: real, w2: real, x2: real, y2: real, z2: real,
    a: real, d: real)
    requires a == w2 * w2 + x2 * x2 - y2 * y2 - z2 * z2 && d == 2.0 * (x1 * z1 - w1 * y1)
    ensures a * d == (w2 * w2 + x2 * x2 - y2 * y2 - z2 * z2) * (2.0 * (x1 * z1 - w1 * y1))
  {
  }

  lemma SecondOfBelow(
    w1: real, x1: real, y1: real, z1: real, w2: real, x2: real, y2: real, z2: real,
    b: real, e: real)
    requires b == 2.0 * (x2 * y2 + w2 * z2) && e == 2.0 * (y1 * z1 + w1 * x1)
    ensures b * e == (2.0 * (x2 * y2 + w2 * z2)) * (2.0 * (y1 * z1 + w1 * x1))
  {
  }

  lemma ThirdOfBelow(
    w1: real, x1: real, y1: real, z1: real, w2: real, x2: real, y2: real, z2: real,
    c: real, f: real)
    requires c == 2.0 * (x2 * z2 - w2 * y2) && f == w1 * w1 + z1 * z1 - x1 * x1 - y1 * y1
    ensures c * f == (2.0 * (x2 * z2 - w2 * y2)) * (w1 * w1 + z1 * z1 - x1 * x1 - y1 * y1)
  {
  }

  lemma RawProductBelow(
    w1: real, x1: real, y1: real, z1: real, w2: real, x2: real, y2: real, z2: real,
    w: real, x: real, y: real, z: real,
    a: real, b: real, c: real, d: real, e: real, f: real)
    requires w == w1 * w2 - (x1 * x2 + y1 * y2 + z1 * z2) && x == w1 * x2 + w2 * x1 + (y1 * z2 - z1 * y2)
    requires y == w1 * y2 + w2 * y1 + (z1 * x2 - x1 * z2) && z == w1 * z2 + w2 * z1 + (x1 * y2 - y1 * x2)
    requires a == w2 * w2 + x2 * x2 - y2 * y2 - z2 * z2 && b == 2.0 * (x2 * y2 + w2 * z2)
            && c == 2.0 * (x2 * z2 - w2 * y2)
    requires d == 2.0 * (x1 * z1 - w1 * y1) && e == 2.0 * (y1 * z1 + w1 * x1)
            && f == w1 * w1 + z1 * z1 - x1 * x1 - y1 * y1
    ensures 2.0 * (x * z - w * y) == a * d + b * e + c * f
  {
    ExpandedBelow(w1, x1, y1, z1, w2, x2, y2, z2, w, x, y, z);
    FirstOfBelow(w1, x1, y1, z1, w2, x2, y2, z2, a, d);
    SecondOfBelow(w1, x1, y1, z1, w2, x2, y2, z2, b, e);
    ThirdOfBelow(w1, x1, y1, z1, w2, x2, y2, z2, c, f);
  }

  // The first row of the product's matrix is the first row of the second times the first matrix.

  lemma ProductDiagonal(
    w1: real, x1: real, y1: real, z1: real, w2: real, x2: real, y2: real, z2: real,
    w: real, x: real, y: real, z: real)
    requires w == ScalarPart(w1, x1, y1, z1, w2, x2, y2, z2) && x == VectorPart(w1, x1, y1, z1, w2, x2, y2, z2)
    requires y == VectorPart(w1, y1, z1, x1, w2, y2, z2, x2) && z == VectorPart(w1, z1, x1, y1, w2, z2, x2, y2)
    ensures Diagonal(w, x, y, z) == Dot(Diagonal(w2, x2, y2, z2), Above(w2, x2, y2, z2), Below(w2, x2, y2, z2),
                                        Diagonal(w1, x1, y1, z1), Below(w1, y1, z1, x1), Above(w1, z1, x1, y1))
  {
    RawProductDiagonal(
      w1, x1, y1, z1, w2, x2, y2, z2, w, x, y, z,
      Diagonal(w2, x2, y2, z2), Above(w2, x2, y2, z2), Below(w2, x2, y2, z2),
      Diagonal(w1, x1, y1, z1), Below(w1, y1, z1, x1), Above(w1, z1, x1, y1));
  }

  lemma ProductAbove(
    w1: real, x1: real, y1: real, z1: real, w2: real, x2: real, y2: real, z2: real,
    w: real, x: real, y: real, z: real)
    requires w == ScalarPart(w1, x1, y1, z1, w2, x2, y2, z2) && x == VectorPart(w1, x1, y1, z1, w2, x2, y2, z2)
    requires y == VectorPart(w1, y1, z1, x1, w2, y2, z2, x2) && z == VectorPart(w1, z1, x1, y1, w2, z2, x2, y2)
    ensures Above(w, x, y, z) == Dot(Diagonal(w2, x2, y2, z2), Above(w2, x2, y2, z2), Below(w2, x2, y2, z2),
                                        Above(w1, x1, y1, z1), Diagonal(w1, y1, z1, x1), Below(w1, z1, x1, y1))
  {
    RawProductAbove(
      w1, x1, y1, z1, w2, x2, y2, z2, w, x, y, z,
      Diagonal(w2, x2, y2, z2), Above(w2, x2, y2, z2), Below(w2, x2, y2, z2),
      Above(w1, x1, y1, z1), Diagonal(w1, y1, z1, x1), Below(w1, z1, x1, y1));
  }

  lemma ProductBelow(
    w1: real, x1: real, y1: real, z1: real, w2: real, x2: real, y2: real, z2: real,
    w: real, x: real, y: real, z: real)
    requires w == ScalarPart(w1, x1, y1, z1, w2, x2, y2, z2) && x == VectorPart(w1, x1, y1, z1, w2, x2, y2, z2)
    requires y == VectorPart(w1, y1, z1, x1, w2, y2, z2, x2) && z == VectorPart(w1, z1, x1, y1, w2, z2, x2, y2)
    ensures Below(w, x, y, z) == Dot(Diagonal(w2, x2, y2, z2), Above(w2, x2, y2, z2), Below(w2, x2, y2, z2),
                                        Below(w1, x1, y1, z1), Above(w1, y1, z1, x1), Diagonal(w1, z1, x1, y1))
  {
    RawProductBelow(
      w1, x1, y1, z1, w2, x2, y2, z2, w, x, y, z,
      Diagonal(w2, x2, y2, z2), Above(w2, x2, y2, z2), Below(w2, x2, y2, z2),
      Below(w1, x1, y1, z1), Above(w1, y1, z1, x1), Diagonal(w1, z1, x1, y1));
  }

  lemma HomogeneousProduct(q1: Quat, q2: Quat)
    ensures Homogeneous(QuatProduct(q1, q2)) == MatMul(Homogeneous(q2), Homogeneous(q1))
  {
    hide Diagonal, Above, Below, Dot, ScalarPart, VectorPart;
    ScalarPartRotates(q1.w, q1.x, q1.y, q1.z, q2.w, q2.x, q2.y, q2.z);
    var p := QuatProduct(q1, q2);
    ProductDiagonal(q1.w, q1.x, q1.y, q1.z, q2.w, q2.x, q2.y, q2.z, p.w, p.x, p.y, p.z);
    ProductAbove(q1.w, q1.x, q1.y, q1.z, q2.w, q2.x, q2.y, q2.z, p.w, p.x, p.y, p.z);
    ProductBelow(q1.w, q1.x, q1.y, q1.z, q2.w, q2.x, q2.y, q2.z, p.w, p.x, p.y, p.z);
    ProductDiagonal(q1.w, q1.y, q1.z, q1.x, q2.w, q2.y, q2.z, q2.x, p.w, p.y, p.z, p.x);
    ProductAbove(q1.w, q1.y, q1.z, q1.x, q2.w, q2.y, q2.z, q2.x, p.w, p.y, p.z, p.x);
    ProductBelow(q1.w, q1.y, q1.z, q1.x, q2.w, q2.y, q2.z, q2.x, p.w, p.y, p.z, p.x);
    ProductDiagonal(q1.w, q1.z, q1.x, q1.y, q2.w, q2.z, q2.x, q2.y, p.w, p.z, p.x, p.y);
    ProductAbove(q1.w, q1.z, q1.x, q1.y, q2.w, q2.z, q2.x, q2.y, p.w, p.z, p.x, p.y);
    ProductBelow(q1.w, q1.z, q1.x, q1.y, q2.w, q2.z, q2.x, q2.y, p.w, p.z, p.x, p.y);
    var h, k := Homogeneous(q2), Homogeneous(q1);
    DotRotates(h.m10, h.m11, h.m12, k.m00, k.m10, k.m20);
    DotRotates(h.m10, h.m11, h.m12, k.m01, k.m11, k.m21);
    DotRotates(h.m10, h.m11, h.m12, k.m02, k.m12, k.m22);
    DotRotates(h.m20, h.m21, h.m22, k.m00, k.m10, k.m20);
    DotRotates(h.m20, h.m21, h.m22, k.m01, k.m11, k.m21);
    DotRotates(h.m20, h.m21, h.m22, k.m02, k.m12, k.m22);
  }

  /** Composition of quaternions is composition of the transformations, in reverse order. */
  lemma ProductReverses(q1: Quat, q2: Quat)
    requires Unit(q1) && Unit(q2)
    ensures QuaternionToRotationMatrix(QuatProduct(q1, q2))
            == MatMul(QuaternionToRotationMatrix(q2), QuaternionToRotationMatrix(q1))
  {
    NormMultiplies(q1, q2);
    UnitIsHomogeneous(q1);
    UnitIsHomogeneous(q2);
    UnitIsHomogeneous(QuatProduct(q1, q2));
    hide Homogeneous, QuatProduct, MatMul, NormSq;
    HomogeneousProduct(q1, q2);
  }
}
