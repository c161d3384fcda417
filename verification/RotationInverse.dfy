/**
 The four-branch conversion from a coordinate transformation to a quaternion. Its divisor is
 bounded away from zero for every matrix, and it inverts the other direction both ways round.
 */
module RotationInverse {
  import opened Arithmetic
  import opened Orientation

  /** The component a branch divides by, up to the factor 4. */
  datatype Pivot = PivotW | PivotX | PivotY | PivotZ

  function Trace(r: Mat3): real {
    r.m00 + r.m11 + r.m22
  }

  function Branch(r: Mat3): Pivot {
    if Trace(r) > 0.0 then PivotW
    else if r.m00 > r.m11 && r.m00 > r.m22 then PivotX
    else if r.m11 > r.m22 then PivotY
    else PivotZ
  }

  function Radicand(r: Mat3): real {
    match Branch(r)
    case PivotW => Trace(r) + 1.0
    case PivotX => 1.0 + r.m00 - r.m11 - r.m22
    case PivotY => 1.0 + r.m11 - r.m00 - r.m22
    case PivotZ => 1.0 + r.m22 - r.m00 - r.m11
  }

  function Divisor(r: Mat3, sqrt: real -> real): real {
    sqrt(Radicand(r)) * 2.0
  }

  /** Every matrix whatever leaves a radicand of at least 1, so the code never divides by less than 2. */
  lemma DivisorBound(r: Mat3, sqrt: real -> real)
    requires RootAt(sqrt, Radicand(r))
    ensures Radicand(r) >= 1.0 && Radicand(r) == Products(r, Branch(r), Branch(r))
    ensures Divisor(r, sqrt) >= 2.0 && Times(Divisor(r, sqrt), Divisor(r, sqrt)) == 4.0 * Radicand(r)
  {
    RootBound(sqrt(Radicand(r)), Radicand(r));
  }

  lemma RootBound(s: real, x: real)
    requires s >= 0.0 && s * s == x && x >= 1.0
    ensures s * 2.0 >= 2.0 && Times(s * 2.0, s * 2.0) == 4.0 * x
  {
    if s < 1.0 {
      ScalesUp(s, s, 1.0);
    }
  }

  function Over(a: real, s: real): real
    requires s >= 2.0
  {
    a / s
  }

  /** `sqrt` stands for the library's square root, right at the one argument it is given. */
  function RotationMatrixToQuaternion(r1: Mat3, sqrt: real -> real): Quat
    requires RootAt(sqrt, Radicand(Transpose(r1)))
  {
    var r := Transpose(r1);
    DivisorBound(r, sqrt);
    var s := Divisor(r, sqrt);
    match Branch(r)
    case PivotW => Quat(0.25 * s, Over(r.m21 - r.m12, s), Over(r.m02 - r.m20, s), Over(r.m10 - r.m01, s))
    case PivotX => Quat(Over(r.m21 - r.m12, s), 0.25 * s, Over(r.m01 + r.m10, s), Over(r.m02 + r.m20, s))
    case PivotY => Quat(Over(r.m02 - r.m20, s), Over(r.m01 + r.m10, s), 0.25 * s, Over(r.m12 + r.m21, s))
    case PivotZ => Quat(Over(r.m10 - r.m01, s), Over(r.m02 + r.m20, s), Over(r.m12 + r.m21, s), 0.25 * s)
  }

  function Component(q: Quat, p: Pivot): real {
    match p
    case PivotW => q.w
    case PivotX => q.x
    case PivotY => q.y
    case PivotZ => q.z
  }

  /** The symmetric matrix every branch reads one row of: for a unit quaternion, four times its products. */
  function Products(r: Mat3, p: Pivot, i: Pivot): real {
    match (p, i)
    case (PivotW, PivotW) => 1.0 + r.m00 + r.m11 + r.m22
    case (PivotX, PivotX) => 1.0 + r.m00 - r.m11 - r.m22
    case (PivotY, PivotY) => 1.0 + r.m11 - r.m00 - r.m22
    case (PivotZ, PivotZ) => 1.0 + r.m22 - r.m00 - r.m11
    case (PivotW, PivotX) => r.m21 - r.m12
    case (PivotX, PivotW) => r.m21 - r.m12
    case (PivotW, PivotY) => r.m02 - r.m20
    case (PivotY, PivotW) => r.m02 - r.m20
    case (PivotW, PivotZ) => r.m10 - r.m01
    case (PivotZ, PivotW) => r.m10 - r.m01
    case (PivotX, PivotY) => r.m01 + r.m10
    case (PivotY, PivotX) => r.m01 + r.m10
    case (PivotX, PivotZ) => r.m02 + r.m20
    case (PivotZ, PivotX) => r.m02 + r.m20
    case (PivotY, PivotZ) => r.m12 + r.m21
    case (PivotZ, PivotY) => r.m12 + r.m21
  }

  lemma BranchEntries(r1: Mat3, sqrt: real -> real, i: Pivot)
    requires RootAt(sqrt, Radicand(Transpose(r1))) && Divisor(Transpose(r1), sqrt) >= 2.0
    ensures var r, q := Transpose(r1), RotationMatrixToQuaternion(r1, sqrt);
      Component(q, i)
        == if i == Branch(r) then 0.25 * Divisor(r, sqrt) else Over(Products(r, Branch(r), i), Divisor(r, sqrt))
  {
    hide Divisor, Branch, Radicand, Over;
  }

  /** Each component is the row entry over the divisor, the pivot included. */
  lemma BranchReadsRow(r1: Mat3, sqrt: real -> real, i: Pivot)
    requires RootAt(sqrt, Radicand(Transpose(r1)))
    ensures var r := Transpose(r1);
      Times(Divisor(r, sqrt), Component(RotationMatrixToQuaternion(r1, sqrt), i)) == Products(r, Branch(r), i)
  {
    var r, q := Transpose(r1), RotationMatrixToQuaternion(r1, sqrt);
    var p, s := Branch(r), Divisor(r, sqrt);
    DivisorBound(r, sqrt);
    BranchEntries(r1, sqrt, i);
    hide *;
    if i == p {
      TimesQuarter(s, Component(q, i), Products(r, p, p));
    } else {
      TimesOver(Products(r, p, i), s);
    }
  }

  lemma TimesOver(a: real, s: real)
    requires s >= 2.0
    ensures Times(s, Over(a, s)) == a
  {
  }

  lemma TimesQuarter(s: real, c: real, x: real)
    requires c == 0.25 * s && Times(s, s) == 4.0 * x
    ensures Times(s, c) == x
  {
  }

  // ----- From a unit quaternion and back -----

  function Four(a: real, b: real): real {
    4.0 * Times(a, b)
  }

  lemma DiagonalProducts(w: real, x: real, y: real, z: real)
    requires SumSq(w, x, y, z) == 1.0
    ensures 1.0 + OneMinus(y, z) + OneMinus(x, z) + OneMinus(x, y) == Four(w, w)
    ensures 1.0 + OneMinus(y, z) - OneMinus(x, z) - OneMinus(x, y) == Four(x, x)
    ensures 1.0 + OneMinus(x, z) - OneMinus(y, z) - OneMinus(x, y) == Four(y, y)
    ensures 1.0 + OneMinus(x, y) - OneMinus(y, z) - OneMinus(x, z) == Four(z, z)
  {
  }

  lemma MixedProducts(a: real, b: real, c: real, d: real)
    ensures TwicePlus(a, b, c, d) + TwiceMinus(a, b, c, d) == Four(a, b) == Four(b, a)
    ensures TwicePlus(a, b, c, d) - TwiceMinus(a, b, c, d) == Four(c, d) == Four(d, c)
  {
  }

  /** The entries of a unit quaternion's matrix determine all products of its components. */
  lemma UnitProducts(q: Quat, p: Pivot, i: Pivot)
    requires Unit(q)
    ensures Products(Transpose(QuaternionToRotationMatrix(q)), p, i) == Four(Component(q, p), Component(q, i))
  {
    hide SumSq, OneMinus, TwicePlus, TwiceMinus, Four;
    var (w, x, y, z) := (q.w, q.x, q.y, q.z);
    DiagonalProducts(w, x, y, z);
    MixedProducts(x, y, w, z);
    MixedProducts(x, z, w, y);
    MixedProducts(y, z, w, x);
  }

  lemma ScaledRow(s: real, c: real, a: real, b: real)
    requires s >= 2.0 && Times(s, s) == 4.0 * Four(c, c) && Times(s, a) == Four(c, b)
    ensures c >= 0.5 || c <= -0.5
    ensures a == if c > 0.0 then b else -b
  {
    assert (s - 4.0 * c) * (s + 4.0 * c) == 0.0;
    if s == 4.0 * c {
      assert s * (a - b) == 0.0;
    } else {
      assert s == -4.0 * c;
      assert s * (a + b) == 0.0;
    }
  }

  lemma ComponentBack(q: Quat, sqrt: real -> real, i: Pivot)
    requires Unit(q) && RootAt(sqrt, Radicand(Transpose(QuaternionToRotationMatrix(q))))
    ensures var m := QuaternionToRotationMatrix(q);
      var c := Component(q, Branch(Transpose(m)));
      (c >= 0.5 || c <= -0.5)
      && Component(RotationMatrixToQuaternion(m, sqrt), i) == if c > 0.0 then Component(q, i) else -Component(q, i)
  {
    hide Products, Component, QuaternionToRotationMatrix, Radicand, Divisor, NormSq, Times, Four;
    var m := QuaternionToRotationMatrix(q);
    var r := Transpose(m);
    var p := Branch(r);
    DivisorBound(r, sqrt);
    BranchReadsRow(m, sqrt, i);
    UnitProducts(q, p, p);
    UnitProducts(q, p, i);
    ScaledRow(Divisor(r, sqrt), Component(q, p), Component(RotationMatrixToQuaternion(m, sqrt), i), Component(q, i));
  }

  /** A unit quaternion comes back up to sign, the pivot made positive; the pivot is never below 1/2. */
  lemma QuaternionComesBack(q: Quat, sqrt: real -> real)
    requires Unit(q) && RootAt(sqrt, Radicand(Transpose(QuaternionToRotationMatrix(q))))
    ensures var m := QuaternionToRotationMatrix(q);
      var c := Component(q, Branch(Transpose(m)));
      (c >= 0.5 || c <= -0.5)
      && RotationMatrixToQuaternion(m, sqrt) == if c > 0.0 then q else Negate(q)
  {
    ComponentBack(q, sqrt, PivotW);
    ComponentBack(q, sqrt, PivotX);
    ComponentBack(q, sqrt, PivotY);
    ComponentBack(q, sqrt, PivotZ);
  }

  lemma SignDropsOut(a: real, b: real, c: real, d: real)
    ensures OneMinus(-a, -b) == OneMinus(a, b)
    ensures TwicePlus(-a, -b, -c, -d) == TwicePlus(a, b, c, d) && TwiceMinus(-a, -b, -c, -d) == TwiceMinus(a, b, c, d)
  {
  }

  /** Two unit quaternions give the same matrix exactly if they agree up to sign. */
  lemma SameMatrixIff(q1: Quat, q2: Quat, sqrt: real -> real)
    requires Unit(q1) && Unit(q2) && RootAt(sqrt, Radicand(Transpose(QuaternionToRotationMatrix(q1))))
    ensures QuaternionToRotationMatrix(q1) == QuaternionToRotationMatrix(q2) <==> q1 == q2 || q1 == Negate(q2)
  {
    hide OneMinus, TwicePlus, TwiceMinus, Unit, Radicand, Branch, Transpose;
    if QuaternionToRotationMatrix(q1) == QuaternionToRotationMatrix(q2) {
      QuaternionComesBack(q1, sqrt);
      QuaternionComesBack(q2, sqrt);
    } else if q1 == Negate(q2) {
      var Quat(w, x, y, z) := q2;
      SignDropsOut(y, z, w, x);
      SignDropsOut(x, z, w, y);
      SignDropsOut(x, y, w, z);
      assert false;
    }
  }

  // ----- From a rotation and back -----

  /**
   What orthogonality and determinant 1 amount to: the rows and columns are orthonormal and every entry is
   its own cofactor.
   */
  predicate Proper(r: Mat3) {
    MatMul(r, Transpose(r)) == IDENTITY && MatMul(Transpose(r), r) == IDENTITY
    && Minor(r.m11, r.m12, r.m21, r.m22) == r.m00
    && Minor(r.m12, r.m10, r.m22, r.m20) == r.m01
    && Minor(r.m10, r.m11, r.m20, r.m21) == r.m02
    && Minor(r.m21, r.m22, r.m01, r.m02) == r.m10
    && Minor(r.m22, r.m20, r.m02, r.m00) == r.m11
    && Minor(r.m20, r.m21, r.m00, r.m01) == r.m12
    && Minor(r.m01, r.m02, r.m11, r.m12) == r.m20
    && Minor(r.m02, r.m00, r.m12, r.m10) == r.m21
    && Minor(r.m00, r.m01, r.m10, r.m11) == r.m22
  }

  /** A vector is the sum of its parts along orthonormal rows; here its only part is along the first. */
  lemma AlongFirstRow(
    a: real, b: real, c: real, d: real, e: real, f: real, g: real, h: real, i: real,
    u: real, v: real, w: real)
    requires Dot(a, d, g, a, d, g) == 1.0 && Dot(b, e, h, b, e, h) == 1.0 && Dot(c, f, i, c, f, i) == 1.0
    requires Dot(a, d, g, b, e, h) == 0.0 && Dot(a, d, g, c, f, i) == 0.0 && Dot(b, e, h, c, f, i) == 0.0
    requires Dot(a, b, c, u, v, w) == 1.0 && Dot(d, e, f, u, v, w) == 0.0 && Dot(g, h, i, u, v, w) == 0.0
    ensures u == a && v == b && w == c
  {
    assert u * Dot(a, d, g, a, d, g) + v * Dot(a, d, g, b, e, h) + w * Dot(a, d, g, c, f, i)
        == a * Dot(a, b, c, u, v, w) + d * Dot(d, e, f, u, v, w) + g * Dot(g, h, i, u, v, w);
    assert u * Dot(a, d, g, b, e, h) + v * Dot(b, e, h, b, e, h) + w * Dot(b, e, h, c, f, i)
        == b * Dot(a, b, c, u, v, w) + e * Dot(d, e, f, u, v, w) + h * Dot(g, h, i, u, v, w);
    assert u * Dot(a, d, g, c, f, i) + v * Dot(b, e, h, c, f, i) + w * Dot(c, f, i, c, f, i)
        == c * Dot(a, b, c, u, v, w) + f * Dot(d, e, f, u, v, w) + i * Dot(g, h, i, u, v, w);
  }

  /** The cofactors of a row are orthogonal to the other two rows, and give the determinant on its own. */
  lemma CofactorsOfRow(
    a: real, b: real, c: real, d: real, e: real, f: real, g: real, h: real, i: real)
    ensures var (u, v, w) := (Minor(e, f, h, i), Minor(f, d, i, g), Minor(d, e, g, h));
      Dot(d, e, f, u, v, w) == 0.0 && Dot(g, h, i, u, v, w) == 0.0
      && Dot(d, e, f, Minor(h, i, b, c), Minor(i, g, c, a), Minor(g, h, a, b)) == Dot(a, b, c, u, v, w)
  {
  }

  lemma RotationIsProper(r: Mat3)
    requires Rotation(r)
    ensures Proper(r)
  {
    hide Dot, Minor;
    var Mat3(a, b, c, d, e, f, g, h, i) := r;
    DotRotates(a, d, g, b, e, h);
    DotRotates(a, d, g, c, f, i);
    DotRotates(b, e, h, c, f, i);
    CofactorsOfRow(a, b, c, d, e, f, g, h, i);
    CofactorsOfRow(d, e, f, g, h, i, a, b, c);
    CofactorsOfRow(g, h, i, a, b, c, d, e, f);
    DotRotates(a, d, g, a, d, g);
    DotRotates(b, e, h, b, e, h);
    DotRotates(c, f, i, c, f, i);
    AlongFirstRow(a, b, c, d, e, f, g, h, i, Minor(e, f, h, i), Minor(f, d, i, g), Minor(d, e, g, h));
    AlongFirstRow(d, e, f, g, h, i, a, b, c, Minor(h, i, b, c), Minor(i, g, c, a), Minor(g, h, a, b));
    AlongFirstRow(g, h, i, a, b, c, d, e, f, Minor(b, c, e, f), Minor(c, a, f, d), Minor(a, b, d, e));
  }

  // The products matrix of a rotation has rank one. Five identities, the others by rotating the axes.

  lemma SquareWX(a: real, b: real, c: real, d: real, e: real, f: real, g: real, h: real, i: real)
    requires Dot(d, e, f, d, e, f) == 1.0 && Dot(g, h, i, g, h, i) == 1.0 && Dot(a, d, g, a, d, g) == 1.0
    requires Minor(e, f, h, i) == a
    ensures Times(1.0 + a + e + i, 1.0 + a - e - i) == Times(h - f, h - f)
  {
  }

  lemma SquareXY(a: real, b: real, c: real, d: real, e: real, f: real, g: real, h: real, i: real)
    requires Dot(a, b, c, a, b, c) == 1.0 && Dot(d, e, f, d, e, f) == 1.0 && Dot(c, f, i, c, f, i) == 1.0
    requires Minor(a, b, d, e) == i
    ensures Times(1.0 + a - e - i, 1.0 + e - a - i) == Times(b + d, b + d)
  {
  }

  lemma MixedWXY(a: real, b: real, c: real, d: real, e: real, f: real, g: real, h: real, i: real)
    requires Dot(a, d, g, b, e, h) == 0.0 && Dot(a, b, c, d, e, f) == 0.0
    requires Minor(h, i, b, c) == d && Minor(f, d, i, g) == b
    ensures Times(1.0 + a + e + i, b + d) == Times(h - f, c - g)
    ensures Times(1.0 + a - e - i, d - b) == Times(h - f, c + g)
  {
  }

  lemma MixedXWY(a: real, b: real, c: real, d: real, e: real, f: real, g: real, h: real, i: real)
    requires Dot(a, d, g, c, f, i) == 0.0 && Dot(a, b, c, g, h, i) == 0.0
    requires Minor(b, c, e, f) == g && Minor(d, e, g, h) == c
    ensures Times(1.0 + a - e - i, c - g) == Times(h - f, b + d)
  {
  }

  lemma MixedXYZ(a: real, b: real, c: real, d: real, e: real, f: real, g: real, h: real, i: real)
    requires Dot(b, e, h, c, f, i) == 0.0 && Dot(d, e, f, g, h, i) == 0.0
    requires Minor(g, h, a, b) == f && Minor(c, a, f, d) == h
    ensures Times(1.0 + a - e - i, f + h) == Times(b + d, c + g)
  {
  }

  lemma RankOneW(r: Mat3, i: Pivot, j: Pivot)
    requires Proper(r) && i != PivotW && j != PivotW
    ensures Times(Products(r, PivotW, PivotW), Products(r, i, j))
            == Times(Products(r, PivotW, i), Products(r, PivotW, j))
  {
    hide Dot, Minor, Times;
    var Mat3(a, b, c, d, e, f, g, h, k) := r;
    DotRotates(a, d, g, b, e, h);
    DotRotates(a, d, g, c, f, k);
    DotRotates(b, e, h, c, f, k);
    DotRotates(a, b, c, d, e, f);
    DotRotates(a, b, c, g, h, k);
    DotRotates(d, e, f, g, h, k);
    DotRotates(a, d, g, a, d, g);
    DotRotates(b, e, h, b, e, h);
    DotRotates(c, f, k, c, f, k);
    DotRotates(a, b, c, a, b, c);
    DotRotates(d, e, f, d, e, f);
    DotRotates(g, h, k, g, h, k);
    TimesCommutes(Products(r, PivotW, i), Products(r, PivotW, j));
    match (i, j)
    case (PivotX, PivotX) => SquareWX(a, b, c, d, e, f, g, h, k);
    case (PivotY, PivotY) => SquareWX(e, f, d, h, k, g, b, c, a);
    case (PivotZ, PivotZ) => SquareWX(k, g, h, c, a, b, f, d, e);
    case (PivotX, PivotY) => MixedWXY(a, b, c, d, e, f, g, h, k);
    case (PivotY, PivotX) => MixedWXY(a, b, c, d, e, f, g, h, k);
    case (PivotY, PivotZ) => MixedWXY(e, f, d, h, k, g, b, c, a);
    case (PivotZ, PivotY) => MixedWXY(e, f, d, h, k, g, b, c, a);
    case (PivotZ, PivotX) => MixedWXY(k, g, h, c, a, b, f, d, e);
    case (PivotX, PivotZ) => MixedWXY(k, g, h, c, a, b, f, d, e);
  }

  lemma RankOneX(r: Mat3, i: Pivot, j: Pivot)
    requires Proper(r) && i != PivotX && j != PivotX
    ensures Times(Products(r, PivotX, PivotX), Products(r, i, j))
            == Times(Products(r, PivotX, i), Products(r, PivotX, j))
  {
    hide Dot, Minor, Times;
    var Mat3(a, b, c, d, e, f, g, h, k) := r;
    DotRotates(a, d, g, a, d, g);
    DotRotates(c, f, k, c, f, k);
    DotRotates(a, b, c, a, b, c);
    DotRotates(g, h, k, g, h, k);
    DotRotates(b, e, h, b, e, h);
    TimesCommutes(Products(r, PivotX, i), Products(r, PivotX, j));
    TimesCommutes(Products(r, PivotX, PivotX), Products(r, i, j));
    match (i, j)
    case (PivotW, PivotW) => SquareWX(a, b, c, d, e, f, g, h, k);
    case (PivotY, PivotY) => SquareXY(a, b, c, d, e, f, g, h, k);
    case (PivotZ, PivotZ) => SquareXY(k, g, h, c, a, b, f, d, e);
    case (PivotW, PivotY) => MixedXWY(a, b, c, d, e, f, g, h, k);
    case (PivotY, PivotW) => MixedXWY(a, b, c, d, e, f, g, h, k);
    case (PivotW, PivotZ) => MixedWXY(a, b, c, d, e, f, g, h, k);
    case (PivotZ, PivotW) => MixedWXY(a, b, c, d, e, f, g, h, k);
    case (PivotY, PivotZ) => MixedXYZ(a, b, c, d, e, f, g, h, k);
    case (PivotZ, PivotY) => MixedXYZ(a, b, c, d, e, f, g, h, k);
  }

  /** The same rotation with the axes renamed x -> y -> z -> x. */
  function Cycle(r: Mat3): Mat3 {
    Mat3(r.m11, r.m12, r.m10, r.m21, r.m22, r.m20, r.m01, r.m02, r.m00)
  }

  function Next(p: Pivot): Pivot {
    match p
    case PivotW => PivotW
    case PivotX => PivotY
    case PivotY => PivotZ
    case PivotZ => PivotX
  }

  lemma CycleKeeps(r: Mat3)
    requires Proper(r)
    ensures Proper(Cycle(r))
    ensures forall i, j :: Products(Cycle(r), i, j) == Products(r, Next(i), Next(j))
  {
    hide Dot, Minor;
    var Mat3(a, b, c, d, e, f, g, h, k) := r;
    DotRotates(a, b, c, a, b, c);
    DotRotates(a, b, c, d, e, f);
    DotRotates(a, b, c, g, h, k);
    DotRotates(d, e, f, d, e, f);
    DotRotates(d, e, f, g, h, k);
    DotRotates(g, h, k, g, h, k);
    DotRotates(a, d, g, a, d, g);
    DotRotates(a, d, g, b, e, h);
    DotRotates(a, d, g, c, f, k);
    DotRotates(b, e, h, b, e, h);
    DotRotates(b, e, h, c, f, k);
    DotRotates(c, f, k, c, f, k);
  }

  /** Any row of a rotation's products matrix determines all of it. */
  lemma RankOne(r: Mat3, p: Pivot, i: Pivot, j: Pivot)
    requires Proper(r)
    ensures Times(Products(r, p, p), Products(r, i, j)) == Times(Products(r, p, i), Products(r, p, j))
  {
    CycleKeeps(r);
    CycleKeeps(Cycle(r));
    hide Proper, Products, Times, Cycle;
    if i == p || j == p {
      TimesCommutes(Products(r, p, i), Products(r, p, j));
    } else {
      match p
      case PivotW => RankOneW(r, i, j);
      case PivotX => RankOneX(r, i, j);
      case PivotY => RankOneX(Cycle(r), Next(Next(i)), Next(Next(j)));
      case PivotZ => RankOneX(Cycle(Cycle(r)), Next(i), Next(j));
    }
  }

  lemma ProductFromRow(s: real, a: real, b: real, ka: real, kb: real, kp: real, kab: real)
    requires s >= 2.0 && Times(s, s) == 4.0 * kp && Times(s, a) == ka && Times(s, b) == kb
    requires Times(kp, kab) == Times(ka, kb)
    ensures Four(a, b) == kab
  {
    assert (s * s) * (4.0 * (a * b)) == 4.0 * ((s * a) * (s * b));
    assert (s * s) * (4.0 * (a * b) - kab) == 0.0;
  }

  lemma ComponentProducts(m: Mat3, sqrt: real -> real, i: Pivot, j: Pivot)
    requires Proper(Transpose(m)) && RootAt(sqrt, Radicand(Transpose(m)))
    ensures var q := RotationMatrixToQuaternion(m, sqrt);
      Four(Component(q, i), Component(q, j)) == Products(Transpose(m), i, j)
  {
    hide Proper, Products, Component, Radicand, Divisor, Times, Four;
    var r, q := Transpose(m), RotationMatrixToQuaternion(m, sqrt);
    var p := Branch(r);
    DivisorBound(r, sqrt);
    BranchReadsRow(m, sqrt, i);
    BranchReadsRow(m, sqrt, j);
    RankOne(r, p, i, j);
    ProductFromRow(Divisor(r, sqrt), Component(q, i), Component(q, j),
      Products(r, p, i), Products(r, p, j), Products(r, p, p), Products(r, i, j));
  }

  lemma EntriesFromProducts(w: real, x: real, y: real, z: real)
    ensures SumSq(w, x, y, z) == 0.25 * (Four(w, w) + Four(x, x) + Four(y, y) + Four(z, z))
    ensures OneMinus(y, z) == 1.0 - 0.5 * (Four(y, y) + Four(z, z))
    ensures OneMinus(x, z) == 1.0 - 0.5 * (Four(x, x) + Four(z, z))
    ensures OneMinus(x, y) == 1.0 - 0.5 * (Four(x, x) + Four(y, y))
  {
  }

  /** Every rotation matrix comes back exactly, by way of a unit quaternion. */
  lemma RotationComesBack(m: Mat3, sqrt: real -> real)
    requires Rotation(m) && RootAt(sqrt, Radicand(Transpose(m)))
    ensures Unit(RotationMatrixToQuaternion(m, sqrt))
    ensures QuaternionToRotationMatrix(RotationMatrixToQuaternion(m, sqrt)) == m
  {
    hide Radicand, RotationMatrixToQuaternion, SumSq, OneMinus, TwicePlus, TwiceMinus, Four, Rotation, Proper;
    TransposeIsRotation(m);
    RotationIsProper(Transpose(m));
    var q := RotationMatrixToQuaternion(m, sqrt);
    forall i, j ensures Four(Component(q, i), Component(q, j)) == Products(Transpose(m), i, j) {
      ComponentProducts(m, sqrt, i, j);
    }
    var Quat(w, x, y, z) := q;
    EntriesFromProducts(w, x, y, z);
    MixedProducts(x, y, w, z);
    MixedProducts(x, z, w, y);
    MixedProducts(y, z, w, x);
    AllProducts(q, m);
  }

  lemma AllProducts(q: Quat, m: Mat3)
    requires forall i, j :: Four(Component(q, i), Component(q, j)) == Products(Transpose(m), i, j)
    ensures Four(q.w, q.w) == Products(Transpose(m), PivotW, PivotW)
            && Four(q.x, q.x) == Products(Transpose(m), PivotX, PivotX)
    ensures Four(q.y, q.y) == Products(Transpose(m), PivotY, PivotY)
            && Four(q.z, q.z) == Products(Transpose(m), PivotZ, PivotZ)
    ensures Four(q.w, q.x) == Products(Transpose(m), PivotW, PivotX)
            && Four(q.w, q.y) == Products(Transpose(m), PivotW, PivotY)
    ensures Four(q.w, q.z) == Products(Transpose(m), PivotW, PivotZ)
            && Four(q.x, q.y) == Products(Transpose(m), PivotX, PivotY)
    ensures Four(q.x, q.z) == Products(Transpose(m), PivotX, PivotZ)
            && Four(q.y, q.z) == Products(Transpose(m), PivotY, PivotZ)
  {
    hide Four, Products;
    assert Component(q, PivotW) == q.w && Component(q, PivotX) == q.x && Component(q, PivotY) == q.y
        && Component(q, PivotZ) == q.z;
  }

  lemma TransposeIsRotation(m: Mat3)
    requires Rotation(m)
    ensures Rotation(Transpose(m))
  {
    hide MatMul;
    var Mat3(a, b, c, d, e, f, g, h, k) := m;
    TransposeDet(a, b, c, d, e, f, g, h, k);
  }

  lemma TransposeDet(a: real, b: real, c: real, d: real, e: real, f: real, g: real, h: real, k: real)
    ensures Dot(a, b, c, Minor(e, f, h, k), Minor(f, d, k, g), Minor(d, e, g, h))
            == Dot(a, d, g, Minor(e, h, f, k), Minor(h, b, k, c), Minor(b, e, c, f))
  {
  }
}
