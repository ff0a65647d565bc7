/**
 The arithmetic that turns a camera position into an arm position: a quaternion becomes a rotation
 matrix, a pose a homogeneous matrix, and the position the last column of a product of three of
 them. Floating point is modelled by the reals.
 */
module ArmGeometry {

  datatype Vec = Vec(x: real, y: real, z: real) {
    function Minus(v: Vec): Vec { Vec(x - v.x, y - v.y, z - v.z) }
    function Plus(v: Vec): Vec { Vec(x + v.x, y + v.y, z + v.z) }
    function Dot(v: Vec): real { x * v.x + y * v.y + z * v.z }
    function Cross(v: Vec): Vec { Vec(y * v.z - z * v.y, z * v.x - x * v.z, x * v.y - y * v.x) }
  }

  /** A 3 by 3 matrix, by rows. */
  datatype Mat3 = Mat3(r0: Vec, r1: Vec, r2: Vec) {
    function Apply(v: Vec): Vec { Vec(r0.Dot(v), r1.Dot(v), r2.Dot(v)) }
    function Transposed(): Mat3 {
      Mat3(Vec(r0.x, r1.x, r2.x), Vec(r0.y, r1.y, r2.y), Vec(r0.z, r1.z, r2.z))
    }
    function Det(): real { r0.Dot(r1.Cross(r2)) }
  }

  const IDENTITY3 := Mat3(Vec(1.0, 0.0, 0.0), Vec(0.0, 1.0, 0.0), Vec(0.0, 0.0, 1.0))

  datatype Quaternion = Quaternion(x: real, y: real, z: real, w: real) {
    function Norm(): real { x * x + y * y + z * z + w * w }
    function Conjugate(): Quaternion { Quaternion(-x, -y, -z, w) }
    function Times(q: Quaternion): Quaternion {
      Quaternion(w * q.x + x * q.w + y * q.z - z * q.y,
                 w * q.y - x * q.z + y * q.w + z * q.x,
                 w * q.z + x * q.y - y * q.x + z * q.w,
                 w * q.w - x * q.x - y * q.y - z * q.z)
    }
    function Scaled(k: real): Quaternion { Quaternion(k * x, k * y, k * z, k * w) }
  }

  /** The matrix for a given value of `scale`, which the code sets to 2 / norm. */
  function ScaledMatrix(q: Quaternion, scale: real): Mat3 {
    var xx, yy, zz := q.x * q.x * scale, q.y * q.y * scale, q.z * q.z * scale;
    var xy, xz, yz := q.x * q.y * scale, q.x * q.z * scale, q.y * q.z * scale;
    var wx, wy, wz := q.w * q.x * scale, q.w * q.y * scale, q.w * q.z * scale;
    Mat3(Vec(1.0 - yy - zz, xy - wz, xz + wy),
         Vec(xy + wz, 1.0 - xx - zz, yz - wx),
         Vec(xz - wy, yz + wx, 1.0 - xx - yy))
  }

  /** `_quaternion_to_matrix`, which needs no unit quaternion and maps the zero one to the identity. */
  function QuaternionToMatrix(q: Quaternion): Mat3 {
    if q.Norm() == 0.0 then IDENTITY3 else ScaledMatrix(q, 2.0 / q.Norm())
  }

  ghost predicate Orthonormal(m: Mat3) {
    && m.r0.Dot(m.r0) == 1.0 && m.r1.Dot(m.r1) == 1.0 && m.r2.Dot(m.r2) == 1.0
    && m.r0.Dot(m.r1) == 0.0 && m.r0.Dot(m.r2) == 0.0 && m.r1.Dot(m.r2) == 0.0
  }

  // The polynomial identities behind the rotation matrix. `s` stands for the scale, `a` to `f` for matrix
  // entries; each identity is stated on real numbers alone and then applied to the rows.

  lemma SquareOfRow0(x: real, y: real, z: real, w: real, s: real, a: real, b: real, c: real)
    requires a == 1.0 - y * y * s - z * z * s && b == x * y * s - w * z * s && c == x * z * s + w * y * s
    requires s * (x * x + y * y + z * z + w * w) == 2.0
    ensures a * a + b * b + c * c == 1.0
  {
    assert a * a + b * b + c * c == 1.0 + (s * (x * x + y * y + z * z + w * w) - 2.0) * (s * (y * y + z * z));
  }

  lemma SquareOfRow1(x: real, y: real, z: real, w: real, s: real, a: real, b: real, c: real)
    requires a == x * y * s + w * z * s && b == 1.0 - x * x * s - z * z * s && c == y * z * s - w * x * s
    requires s * (x * x + y * y + z * z + w * w) == 2.0
    ensures a * a + b * b + c * c == 1.0
  {
    assert a * a + b * b + c * c == 1.0 + (s * (x * x + y * y + z * z + w * w) - 2.0) * (s * (x * x + z * z));
  }

  lemma SquareOfRow2(x: real, y: real, z: real, w: real, s: real, a: real, b: real, c: real)
    requires a == x * z * s - w * y * s && b == y * z * s + w * x * s && c == 1.0 - x * x * s - y * y * s
    requires s * (x * x + y * y + z * z + w * w) == 2.0
    ensures a * a + b * b + c * c == 1.0
  {
    assert a * a + b * b + c * c == 1.0 + (s * (x * x + y * y + z * z + w * w) - 2.0) * (s * (x * x + y * y));
  }

  lemma ProductOfRows01(
    x: real, y: real, z: real, w: real, s: real, a: real, b: real, c: real, d: real, e: real, f: real)
    requires a == 1.0 - y * y * s - z * z * s && b == x * y * s - w * z * s && c == x * z * s + w * y * s
    requires d == x * y * s + w * z * s && e == 1.0 - x * x * s - z * z * s && f == y * z * s - w * x * s
    ensures a * d + b * e + c * f == (2.0 - s * (x * x + y * y + z * z + w * w)) * (s * (x * y))
  {
  }

  lemma ProductOfRows02(
    x: real, y: real, z: real, w: real, s: real, a: real, b: real, c: real, d: real, e: real, f: real)
    requires a == 1.0 - y * y * s - z * z * s && b == x * y * s - w * z * s && c == x * z * s + w * y * s
    requires d == x * z * s - w * y * s && e == y * z * s + w * x * s && f == 1.0 - x * x * s - y * y * s
    ensures a * d + b * e + c * f == (2.0 - s * (x * x + y * y + z * z + w * w)) * (s * (x * z))
  {
    ProductOfRows01(z, x, y, w, s, f, d, e, c, a, b);
  }

  lemma ProductOfRows12(
    x: real, y: real, z: real, w: real, s: real, a: real, b: real, c: real, d: real, e: real, f: real)
    requires a == x * y * s + w * z * s && b == 1.0 - x * x * s - z * z * s && c == y * z * s - w * x * s
    requires d == x * z * s - w * y * s && e == y * z * s + w * x * s && f == 1.0 - x * x * s - y * y * s
    ensures a * d + b * e + c * f == (2.0 - s * (x * x + y * y + z * z + w * w)) * (s * (y * z))
  {
  }

  lemma SquareOfProduct(a: real, b: real, s: real)
    ensures (a * b * s) * (a * b * s) == (a * a * s) * (b * b * s)
  {
  }

  lemma CrossOfRowsX(p: real, r: real, t: real, g: real, yz: real, wx: real, b: real, c: real, e: real, f: real)
    requires b == 1.0 - p - t && c == yz - wx && e == yz + wx && f == 1.0 - p - r
    requires yz * yz == r * t && wx * wx == p * g && p + r + t + g == 2.0
    ensures b * f - c * e == 1.0 - r - t
  {
    assert c * e == yz * yz - wx * wx;
    assert b * f == 1.0 - p - t - p - r + (p + t) * (p + r);
    assert (p + t) * (p + r) == p * (p + r + t) + r * t;
    assert p * (p + r + t) + p * g == p * 2.0;
  }

  lemma CrossOfEntriesX(x: real, y: real, z: real, w: real, s: real, b: real, c: real, e: real, f: real)
    requires b == 1.0 - x * x * s - z * z * s && c == y * z * s - w * x * s
    requires e == y * z * s + w * x * s && f == 1.0 - x * x * s - y * y * s
    requires s * (x * x + y * y + z * z + w * w) == 2.0
    ensures b * f - c * e == 1.0 - y * y * s - z * z * s
  {
    var (p, r, t, g) := (x * x * s, y * y * s, z * z * s, w * w * s);
    var yz, wx := y * z * s, w * x * s;
    assert yz * yz == r * t && wx * wx == p * g by {
      SquareOfProduct(y, z, s);
      SquareOfProduct(w, x, s);
    }
    CrossOfRowsX(p, r, t, g, yz, wx, b, c, e, f);
  }

  lemma CrossOfRowsY(x: real, y: real, z: real, w: real, s: real, a: real, b: real, c: real, d: real, e: real, f: real)
    requires a == x * y * s + w * z * s && b == 1.0 - x * x * s - z * z * s && c == y * z * s - w * x * s
    requires d == x * z * s - w * y * s && e == y * z * s + w * x * s && f == 1.0 - x * x * s - y * y * s
    ensures c * d - a * f == x * y * s - w * z * s + (s * (x * x + y * y + z * z + w * w) - 2.0) * (s * (x * y))
  {
  }

  lemma CrossOfRowsZ(x: real, y: real, z: real, w: real, s: real, a: real, b: real, c: real, d: real, e: real, f: real)
    requires a == x * y * s + w * z * s && b == 1.0 - x * x * s - z * z * s && c == y * z * s - w * x * s
    requires d == x * z * s - w * y * s && e == y * z * s + w * x * s && f == 1.0 - x * x * s - y * y * s
    ensures a * e - b * d == x * z * s + w * y * s + (s * (x * x + y * y + z * z + w * w) - 2.0) * (s * (x * z))
  {
  }

  lemma ZeroTimes(a: real, b: real)
    requires a == 0.0
    ensures a * b == 0.0
  {
  }

  lemma NoProductOfRows01(
    x: real, y: real, z: real, w: real, s: real, a: real, b: real, c: real, d: real, e: real, f: real)
    requires a == 1.0 - y * y * s - z * z * s && b == x * y * s - w * z * s && c == x * z * s + w * y * s
    requires d == x * y * s + w * z * s && e == 1.0 - x * x * s - z * z * s && f == y * z * s - w * x * s
    requires s * (x * x + y * y + z * z + w * w) == 2.0
    ensures a * d + b * e + c * f == 0.0
  {
    ProductOfRows01(x, y, z, w, s, a, b, c, d, e, f);
    ZeroTimes(2.0 - s * (x * x + y * y + z * z + w * w), s * (x * y));
  }

  lemma NoProductOfRows02(
    x: real, y: real, z: real, w: real, s: real, a: real, b: real, c: real, d: real, e: real, f: real)
    requires a == 1.0 - y * y * s - z * z * s && b == x * y * s - w * z * s && c == x * z * s + w * y * s
    requires d == x * z * s - w * y * s && e == y * z * s + w * x * s && f == 1.0 - x * x * s - y * y * s
    requires s * (x * x + y * y + z * z + w * w) == 2.0
    ensures a * d + b * e + c * f == 0.0
  {
    ProductOfRows02(x, y, z, w, s, a, b, c, d, e, f);
    ZeroTimes(2.0 - s * (x * x + y * y + z * z + w * w), s * (x * z));
  }

  lemma NoProductOfRows12(
    x: real, y: real, z: real, w: real, s: real, a: real, b: real, c: real, d: real, e: real, f: real)
    requires a == x * y * s + w * z * s && b == 1.0 - x * x * s - z * z * s && c == y * z * s - w * x * s
    requires d == x * z * s - w * y * s && e == y * z * s + w * x * s && f == 1.0 - x * x * s - y * y * s
    requires s * (x * x + y * y + z * z + w * w) == 2.0
    ensures a * d + b * e + c * f == 0.0
  {
    ProductOfRows12(x, y, z, w, s, a, b, c, d, e, f);
    ZeroTimes(2.0 - s * (x * x + y * y + z * z + w * w), s * (y * z));
  }

  lemma CrossOfUnitRowsY(
    x: real, y: real, z: real, w: real, s: real, a: real, b: real, c: real, d: real, e: real, f: real)
    requires a == x * y * s + w * z * s && b == 1.0 - x * x * s - z * z * s && c == y * z * s - w * x * s
    requires d == x * z * s - w * y * s && e == y * z * s + w * x * s && f == 1.0 - x * x * s - y * y * s
    requires s * (x * x + y * y + z * z + w * w) == 2.0
    ensures c * d - a * f == x * y * s - w * z * s
  {
    CrossOfRowsY(x, y, z, w, s, a, b, c, d, e, f);
    ZeroTimes(s * (x * x + y * y + z * z + w * w) - 2.0, s * (x * y));
  }

  lemma CrossOfUnitRowsZ(
    x: real, y: real, z: real, w: real, s: real, a: real, b: real, c: real, d: real, e: real, f: real)
    requires a == x * y * s + w * z * s && b == 1.0 - x * x * s - z * z * s && c == y * z * s - w * x * s
    requires d == x * z * s - w * y * s && e == y * z * s + w * x * s && f == 1.0 - x * x * s - y * y * s
    requires s * (x * x + y * y + z * z + w * w) == 2.0
    ensures a * e - b * d == x * z * s + w * y * s
  {
    CrossOfRowsZ(x, y, z, w, s, a, b, c, d, e, f);
    ZeroTimes(s * (x * x + y * y + z * z + w * w) - 2.0, s * (x * z));
  }

  // The same facts about the rows of the matrix.

  predicate IsRow0(u: Vec, q: Quaternion, s: real) {
    && u.x == 1.0 - q.y * q.y * s - q.z * q.z * s
    && u.y == q.x * q.y * s - q.w * q.z * s && u.z == q.x * q.z * s + q.w * q.y * s
  }

  predicate IsRow1(u: Vec, q: Quaternion, s: real) {
    && u.x == q.x * q.y * s + q.w * q.z * s
    && u.y == 1.0 - q.x * q.x * s - q.z * q.z * s && u.z == q.y * q.z * s - q.w * q.x * s
  }

  predicate IsRow2(u: Vec, q: Quaternion, s: real) {
    && u.x == q.x * q.z * s - q.w * q.y * s
    && u.y == q.y * q.z * s + q.w * q.x * s && u.z == 1.0 - q.x * q.x * s - q.y * q.y * s
  }

  lemma MatrixRows(q: Quaternion, s: real)
    ensures var m := ScaledMatrix(q, s); IsRow0(m.r0, q, s) && IsRow1(m.r1, q, s) && IsRow2(m.r2, q, s)
  {
  }

  lemma Row0IsUnit(q: Quaternion, s: real, u: Vec)
    requires IsRow0(u, q, s) && s * q.Norm() == 2.0
    ensures u.Dot(u) == 1.0
  {
    SquareOfRow0(q.x, q.y, q.z, q.w, s, u.x, u.y, u.z);
  }

  lemma Row1IsUnit(q: Quaternion, s: real, u: Vec)
    requires IsRow1(u, q, s) && s * q.Norm() == 2.0
    ensures u.Dot(u) == 1.0
  {
    SquareOfRow1(q.x, q.y, q.z, q.w, s, u.x, u.y, u.z);
  }

  lemma Row2IsUnit(q: Quaternion, s: real, u: Vec)
    requires IsRow2(u, q, s) && s * q.Norm() == 2.0
    ensures u.Dot(u) == 1.0
  {
    SquareOfRow2(q.x, q.y, q.z, q.w, s, u.x, u.y, u.z);
  }

  lemma Rows01AreOrthogonal(q: Quaternion, s: real, u: Vec, v: Vec)
    requires IsRow0(u, q, s) && IsRow1(v, q, s) && s * q.Norm() == 2.0
    ensures u.Dot(v) == 0.0
  {
    NoProductOfRows01(q.x, q.y, q.z, q.w, s, u.x, u.y, u.z, v.x, v.y, v.z);
  }

  lemma Rows02AreOrthogonal(q: Quaternion, s: real, u: Vec, v: Vec)
    requires IsRow0(u, q, s) && IsRow2(v, q, s) && s * q.Norm() == 2.0
    ensures u.Dot(v) == 0.0
  {
    NoProductOfRows02(q.x, q.y, q.z, q.w, s, u.x, u.y, u.z, v.x, v.y, v.z);
  }

  lemma Rows12AreOrthogonal(q: Quaternion, s: real, u: Vec, v: Vec)
    requires IsRow1(u, q, s) && IsRow2(v, q, s) && s * q.Norm() == 2.0
    ensures u.Dot(v) == 0.0
  {
    NoProductOfRows12(q.x, q.y, q.z, q.w, s, u.x, u.y, u.z, v.x, v.y, v.z);
  }

  lemma CrossX(q: Quaternion, s: real, u: Vec, v: Vec)
    requires IsRow1(u, q, s) && IsRow2(v, q, s) && s * q.Norm() == 2.0
    ensures u.Cross(v).x == 1.0 - q.y * q.y * s - q.z * q.z * s
  {
    CrossOfEntriesX(q.x, q.y, q.z, q.w, s, u.y, u.z, v.y, v.z);
  }

  lemma CrossY(q: Quaternion, s: real, u: Vec, v: Vec)
    requires IsRow1(u, q, s) && IsRow2(v, q, s) && s * q.Norm() == 2.0
    ensures u.Cross(v).y == q.x * q.y * s - q.w * q.z * s
  {
    CrossOfUnitRowsY(q.x, q.y, q.z, q.w, s, u.x, u.y, u.z, v.x, v.y, v.z);
  }

  lemma CrossZ(q: Quaternion, s: real, u: Vec, v: Vec)
    requires IsRow1(u, q, s) && IsRow2(v, q, s) && s * q.Norm() == 2.0
    ensures u.Cross(v).z == q.x * q.z * s + q.w * q.y * s
  {
    CrossOfUnitRowsZ(q.x, q.y, q.z, q.w, s, u.x, u.y, u.z, v.x, v.y, v.z);
  }

  lemma OrthonormalRows(q: Quaternion, s: real)
    requires s * q.Norm() == 2.0
    ensures Orthonormal(ScaledMatrix(q, s))
  {
    var m := ScaledMatrix(q, s);
    MatrixRows(q, s);
    Row0IsUnit(q, s, m.r0);
    Row1IsUnit(q, s, m.r1);
    Row2IsUnit(q, s, m.r2);
    Rows01AreOrthogonal(q, s, m.r0, m.r1);
    Rows02AreOrthogonal(q, s, m.r0, m.r2);
    Rows12AreOrthogonal(q, s, m.r1, m.r2);
  }

  /** The third row completes a right-handed frame, so the determinant is 1 and not -1. */
  lemma RightHanded(q: Quaternion, s: real)
    requires s * q.Norm() == 2.0
    ensures var m := ScaledMatrix(q, s); m.r1.Cross(m.r2) == m.r0
  {
    var m := ScaledMatrix(q, s);
    MatrixRows(q, s);
    CrossX(q, s, m.r1, m.r2);
    CrossY(q, s, m.r1, m.r2);
    CrossZ(q, s, m.r1, m.r2);
  }

  lemma ScaleTimesNorm(n: real)
    requires n != 0.0
    ensures (2.0 / n) * n == 2.0
  {
  }

  /** For every quaternion, the zero one included, the matrix is a rotation: its rows are orthonormal
      and its determinant is 1. */
  lemma MatrixIsRotation(q: Quaternion)
    ensures Orthonormal(QuaternionToMatrix(q)) && QuaternionToMatrix(q).Det() == 1.0
  {
    if q.Norm() != 0.0 {
      var s := 2.0 / q.Norm();
      ScaleTimesNorm(q.Norm());
      OrthonormalRows(q, s);
      RightHanded(q, s);
    }
  }

  /** The products of two components, times the scale, from which the matrix is made. */
  function Entry(q: Quaternion, i: nat, j: nat, s: real): real {
    Component(q, i) * Component(q, j) * s
  }

  function Component(q: Quaternion, i: nat): real {
    if i == 0 then q.x else if i == 1 then q.y else if i == 2 then q.z else q.w
  }

  lemma MatrixFromOpposite(p: Quaternion, q: Quaternion, s: real)
    requires forall i: nat, j: nat :: i < 3 && j < 3 ==> Entry(p, i, j, s) == Entry(q, i, j, s)
    requires forall i: nat :: i < 3 ==> Entry(p, 3, i, s) == 0.0 - Entry(q, 3, i, s)
    ensures ScaledMatrix(p, s) == ScaledMatrix(q, s).Transposed()
  {
    assert Entry(p, 0, 0, s) == Entry(q, 0, 0, s) && Entry(p, 1, 1, s) == Entry(q, 1, 1, s);
    assert Entry(p, 2, 2, s) == Entry(q, 2, 2, s) && Entry(p, 0, 1, s) == Entry(q, 0, 1, s);
    assert Entry(p, 0, 2, s) == Entry(q, 0, 2, s) && Entry(p, 1, 2, s) == Entry(q, 1, 2, s);
    assert Entry(p, 3, 0, s) == 0.0 - Entry(q, 3, 0, s) && Entry(p, 3, 1, s) == 0.0 - Entry(q, 3, 1, s);
    assert Entry(p, 3, 2, s) == 0.0 - Entry(q, 3, 2, s);
  }

  lemma OppositeEntry(a: real, b: real, s: real)
    ensures (0.0 - a) * (0.0 - b) * s == a * b * s && a * (0.0 - b) * s == 0.0 - a * b * s
  {
  }

  lemma ConjugateScaled(q: Quaternion, s: real)
    ensures ScaledMatrix(q.Conjugate(), s) == ScaledMatrix(q, s).Transposed()
  {
    var p := q.Conjugate();
    forall i: nat, j: nat | i < 3 && j < 3 ensures Entry(p, i, j, s) == Entry(q, i, j, s) {
      OppositeEntry(Component(q, i), Component(q, j), s);
    }
    forall i: nat | i < 3 ensures Entry(p, 3, i, s) == 0.0 - Entry(q, 3, i, s) {
      OppositeEntry(q.w, Component(q, i), s);
    }
    MatrixFromOpposite(p, q, s);
  }

  /** The conjugate quaternion gives the transposed matrix. */
  lemma ConjugateTransposes(q: Quaternion)
    ensures QuaternionToMatrix(q.Conjugate()) == QuaternionToMatrix(q).Transposed()
  {
    assert q.Conjugate().Norm() == q.Norm();
    if q.Norm() != 0.0 {
      ConjugateScaled(q, 2.0 / q.Norm());
    }
  }

  /** The reference: a quaternion rotates a vector by conjugation. */
  function Conjugated(q: Quaternion, v: Vec): Quaternion {
    q.Times(Quaternion(v.x, v.y, v.z, 0.0)).Times(q.Conjugate())
  }

  lemma ConjugatedX(
    x: real, y: real, z: real, w: real, a: real, b: real, c: real, px: real, py: real, pz: real, pw: real)
    requires px == w * a + y * c - z * b && py == w * b - x * c + z * a
    requires pz == w * c + x * b - y * a && pw == -x * a - y * b - z * c
    ensures pw * (-x) + px * w + py * (-z) - pz * (-y)
         == (w * w + x * x - y * y - z * z) * a + 2.0 * ((x * y - w * z) * b) + 2.0 * ((x * z + w * y) * c)
  {
  }

  lemma ConjugatedY(
    x: real, y: real, z: real, w: real, a: real, b: real, c: real, px: real, py: real, pz: real, pw: real)
    requires px == w * a + y * c - z * b && py == w * b - x * c + z * a
    requires pz == w * c + x * b - y * a && pw == -x * a - y * b - z * c
    ensures pw * (-y) - px * (-z) + py * w + pz * (-x)
         == 2.0 * ((x * y + w * z) * a) + (w * w + y * y - x * x - z * z) * b + 2.0 * ((y * z - w * x) * c)
  {
  }

  lemma ConjugatedZ(
    x: real, y: real, z: real, w: real, a: real, b: real, c: real, px: real, py: real, pz: real, pw: real)
    requires px == w * a + y * c - z * b && py == w * b - x * c + z * a
    requires pz == w * c + x * b - y * a && pw == -x * a - y * b - z * c
    ensures pw * (-z) + px * (-y) - py * (-x) + pz * w
         == 2.0 * ((x * z - w * y) * a) + 2.0 * ((y * z + w * x) * b) + (w * w + z * z - x * x - y * y) * c
  {
  }

  lemma ConjugatedW(
    x: real, y: real, z: real, w: real, a: real, b: real, c: real, px: real, py: real, pz: real, pw: real)
    requires px == w * a + y * c - z * b && py == w * b - x * c + z * a
    requires pz == w * c + x * b - y * a && pw == -x * a - y * b - z * c
    ensures pw * w - px * (-x) - py * (-y) - pz * (-z) == 0.0
  {
  }

  /** The conjugation multiplied out, a quadratic form in the quaternion for each component. */
  function Expanded(q: Quaternion, v: Vec): Quaternion {
    var Quaternion(x, y, z, w) := q;
    var Vec(a, b, c) := v;
    Quaternion((w * w + x * x - y * y - z * z) * a + 2.0 * ((x * y - w * z) * b) + 2.0 * ((x * z + w * y) * c),
      2.0 * ((x * y + w * z) * a) + (w * w + y * y - x * x - z * z) * b + 2.0 * ((y * z - w * x) * c),
      2.0 * ((x * z - w * y) * a) + 2.0 * ((y * z + w * x) * b) + (w * w + z * z - x * x - y * y) * c, 0.0)
  }

  lemma ConjugatedExpandsX(q: Quaternion, v: Vec)
    ensures Conjugated(q, v).x == Expanded(q, v).x
  {
    var p := q.Times(Quaternion(v.x, v.y, v.z, 0.0));
    ConjugatedX(q.x, q.y, q.z, q.w, v.x, v.y, v.z, p.x, p.y, p.z, p.w);
  }

  lemma ConjugatedExpandsY(q: Quaternion, v: Vec)
    ensures Conjugated(q, v).y == Expanded(q, v).y
  {
    var p := q.Times(Quaternion(v.x, v.y, v.z, 0.0));
    ConjugatedY(q.x, q.y, q.z, q.w, v.x, v.y, v.z, p.x, p.y, p.z, p.w);
  }

  lemma ConjugatedExpandsZ(q: Quaternion, v: Vec)
    ensures Conjugated(q, v).z == Expanded(q, v).z
  {
    var p := q.Times(Quaternion(v.x, v.y, v.z, 0.0));
    ConjugatedZ(q.x, q.y, q.z, q.w, v.x, v.y, v.z, p.x, p.y, p.z, p.w);
  }

  lemma ConjugatedExpandsW(q: Quaternion, v: Vec)
    ensures Conjugated(q, v).w == Expanded(q, v).w
  {
    var p := q.Times(Quaternion(v.x, v.y, v.z, 0.0));
    ConjugatedW(q.x, q.y, q.z, q.w, v.x, v.y, v.z, p.x, p.y, p.z, p.w);
  }

  lemma ConjugatedExpands(q: Quaternion, v: Vec)
    ensures Conjugated(q, v) == Expanded(q, v)
  {
    ConjugatedExpandsX(q, v);
    ConjugatedExpandsY(q, v);
    ConjugatedExpandsZ(q, v);
    ConjugatedExpandsW(q, v);
  }

  lemma Stretch(k: real, l: real, m: real, a: real, b: real, c: real, s: real, u: real, v: real, t: real)
    requires k * s == 2.0 * u && l * s == v && m * s == t
    ensures (k * a + 2.0 * (l * b) + 2.0 * (m * c)) * s == 2.0 * (u * a + v * b + t * c)
  {
    assert (k * a) * s == (k * s) * a == 2.0 * (u * a);
    assert (l * b) * s == (l * s) * b == v * b;
    assert (m * c) * s == (m * s) * c == t * c;
  }

  lemma StretchX(q: Quaternion, s: real, v: Vec)
    requires s * q.Norm() == 2.0
    ensures Expanded(q, v).x * s == 2.0 * ScaledMatrix(q, s).Apply(v).x
  {
    var Quaternion(x, y, z, w) := q;
    var m := ScaledMatrix(q, s);
    Stretch(w * w + x * x - y * y - z * z, x * y - w * z, x * z + w * y, v.x, v.y, v.z, s, m.r0.x, m.r0.y, m.r0.z);
  }

  lemma StretchY(q: Quaternion, s: real, v: Vec)
    requires s * q.Norm() == 2.0
    ensures Expanded(q, v).y * s == 2.0 * ScaledMatrix(q, s).Apply(v).y
  {
    var Quaternion(x, y, z, w) := q;
    var m := ScaledMatrix(q, s);
    Stretch(w * w + y * y - x * x - z * z, x * y + w * z, y * z - w * x, v.y, v.x, v.z, s, m.r1.y, m.r1.x, m.r1.z);
  }

  lemma StretchZ(q: Quaternion, s: real, v: Vec)
    requires s * q.Norm() == 2.0
    ensures Expanded(q, v).z * s == 2.0 * ScaledMatrix(q, s).Apply(v).z
  {
    var Quaternion(x, y, z, w) := q;
    var m := ScaledMatrix(q, s);
    Stretch(w * w + z * z - x * x - y * y, x * z - w * y, y * z + w * x, v.z, v.x, v.y, s, m.r2.z, m.r2.x, m.r2.y);
  }

  lemma ConjugationScaled(q: Quaternion, s: real, v: Vec)
    requires s * q.Norm() == 2.0
    ensures var c, r := Conjugated(q, v), ScaledMatrix(q, s).Apply(v);
            c.w == 0.0 && c.x * s == 2.0 * r.x && c.y * s == 2.0 * r.y && c.z * s == 2.0 * r.z
  {
    ConjugatedExpands(q, v);
    StretchX(q, s, v);
    StretchY(q, s, v);
    StretchZ(q, s, v);
  }

  /** The matrix rotates exactly as the quaternion does: applying it gives q v q* / |q|^2. */
  lemma MatrixIsConjugation(q: Quaternion, v: Vec)
    requires q.Norm() != 0.0
    ensures var c, r := Conjugated(q, v), QuaternionToMatrix(q).Apply(v);
            c == Quaternion(q.Norm() * r.x, q.Norm() * r.y, q.Norm() * r.z, 0.0)
  {
    var n := q.Norm();
    var s := 2.0 / n;
    ScaleTimesNorm(n);
    ConjugationScaled(q, s, v);
    var c, r := Conjugated(q, v), ScaledMatrix(q, s).Apply(v);
    Unscale(c.x, r.x, s, n);
    Unscale(c.y, r.y, s, n);
    Unscale(c.z, r.z, s, n);
  }

  lemma Unscale(c: real, r: real, s: real, n: real)
    requires c * s == 2.0 * r && s * n == 2.0
    ensures c == n * r
  {
    assert (c * s) * n == c * (s * n);
    assert (2.0 * r) * n == 2.0 * (n * r);
  }

  /** Only the direction of a quaternion matters. */
  lemma MatrixIgnoresLength(q: Quaternion, k: real)
    requires k != 0.0
    ensures QuaternionToMatrix(q.Scaled(k)) == QuaternionToMatrix(q)
  {
    var n := q.Norm();
    assert q.Scaled(k).Norm() == (k * k) * n;
    if n != 0.0 {
      var s, t := 2.0 / n, 2.0 / ((k * k) * n);
      ScaleTimesNorm(n);
      ScaleTimesNorm((k * k) * n);
      assert (t * (k * k)) * n == s * n;
      assert t * (k * k) == s;
      ScaledMatrixScaled(q, k, t, s);
    }
  }

  lemma MatrixFromEntries(p: Quaternion, t: real, q: Quaternion, s: real)
    requires forall i: nat, j: nat :: Entry(p, i, j, t) == Entry(q, i, j, s)
    ensures ScaledMatrix(p, t) == ScaledMatrix(q, s)
  {
    assert Entry(p, 0, 0, t) == Entry(q, 0, 0, s) && Entry(p, 1, 1, t) == Entry(q, 1, 1, s);
    assert Entry(p, 2, 2, t) == Entry(q, 2, 2, s) && Entry(p, 0, 1, t) == Entry(q, 0, 1, s);
    assert Entry(p, 0, 2, t) == Entry(q, 0, 2, s) && Entry(p, 1, 2, t) == Entry(q, 1, 2, s);
    assert Entry(p, 3, 0, t) == Entry(q, 3, 0, s) && Entry(p, 3, 1, t) == Entry(q, 3, 1, s);
    assert Entry(p, 3, 2, t) == Entry(q, 3, 2, s);
  }

  lemma ScaledEntry(a: real, b: real, k: real, t: real)
    ensures (k * a) * (k * b) * t == a * b * (t * (k * k))
  {
  }

  lemma ScaledMatrixScaled(q: Quaternion, k: real, t: real, s: real)
    requires s == t * (k * k)
    ensures ScaledMatrix(q.Scaled(k), t) == ScaledMatrix(q, s)
  {
    forall i: nat, j: nat ensures Entry(q.Scaled(k), i, j, t) == Entry(q, i, j, s) {
      ScaledEntry(Component(q, i), Component(q, j), k, t);
    }
    MatrixFromEntries(q.Scaled(k), t, q, s);
  }

  // ---------- Homogeneous matrices ----------

  datatype Row = Row(a: real, b: real, c: real, d: real)

  /** A 4 by 4 matrix, by rows. */
  datatype Mat4 = Mat4(r0: Row, r1: Row, r2: Row, r3: Row)

  function RowTimes(r: Row, m: Mat4): Row {
    Row(r.a * m.r0.a + r.b * m.r1.a + r.c * m.r2.a + r.d * m.r3.a,
        r.a * m.r0.b + r.b * m.r1.b + r.c * m.r2.b + r.d * m.r3.b,
        r.a * m.r0.c + r.b * m.r1.c + r.c * m.r2.c + r.d * m.r3.c,
        r.a * m.r0.d + r.b * m.r1.d + r.c * m.r2.d + r.d * m.r3.d)
  }

  /** The matrix product `m @ n`. */
  function Product(m: Mat4, n: Mat4): Mat4 {
    Mat4(RowTimes(m.r0, n), RowTimes(m.r1, n), RowTimes(m.r2, n), RowTimes(m.r3, n))
  }

  function LastColumn(m: Mat4): Vec {
    Vec(m.r0.d, m.r1.d, m.r2.d)
  }

  const LAST_ROW := Row(0.0, 0.0, 0.0, 1.0)

  function RowOf(r: Vec, d: real): Row {
    Row(r.x, r.y, r.z, d)
  }

  function Homogeneous(m: Mat3, t: Vec): Mat4 {
    Mat4(RowOf(m.r0, t.x), RowOf(m.r1, t.y), RowOf(m.r2, t.z), LAST_ROW)
  }

  datatype Pose = Pose(orientation: Quaternion, position: Vec)

  function PoseToMatrix(pose: Pose): Mat4 {
    Homogeneous(QuaternionToMatrix(pose.orientation), pose.position)
  }

  function Hand2CamMatrix(t: Vec): Mat4 {
    Mat4(Row(0.0, 0.0, 1.0, t.x), Row(-1.0, 0.0, 0.0, t.y), Row(0.0, -1.0, 0.0, t.z), Row(0.0, 0.0, 0.0, 1.0))
  }

  function Translation(t: Vec): Mat4 {
    Homogeneous(IDENTITY3, t)
  }

  /** `_camera_to_arm_position`. */
  function CameraToArm(camera: Vec, endpoint: Mat4, offset: Vec): Vec {
    LastColumn(Product(Product(endpoint, Hand2CamMatrix(offset)), Translation(camera)))
  }

  /** What the camera sees ahead, right and below is ahead, right and below of the hand. */
  function CameraToHand(camera: Vec): Vec {
    Vec(camera.z, -camera.x, -camera.y)
  }

  lemma RowThroughMatrix(r: Vec, n: Mat3, p: Vec)
    ensures n.Transposed().Apply(r).Dot(p) == r.Dot(n.Apply(p))
  {
    assert (r.x * n.r0.x + r.y * n.r1.x + r.z * n.r2.x) * p.x
        == r.x * (n.r0.x * p.x) + r.y * (n.r1.x * p.x) + r.z * (n.r2.x * p.x);
    assert (r.x * n.r0.y + r.y * n.r1.y + r.z * n.r2.y) * p.y
        == r.x * (n.r0.y * p.y) + r.y * (n.r1.y * p.y) + r.z * (n.r2.y * p.y);
    assert (r.x * n.r0.z + r.y * n.r1.z + r.z * n.r2.z) * p.z
        == r.x * (n.r0.z * p.z) + r.y * (n.r1.z * p.z) + r.z * (n.r2.z * p.z);
  }

  lemma RowTimesHomogeneous(r: Vec, d: real, n: Mat3, u: Vec)
    ensures RowTimes(RowOf(r, d), Homogeneous(n, u)) == RowOf(n.Transposed().Apply(r), r.Dot(u) + d)
  {
  }

  lemma ProductOfHomogeneous(m: Mat3, t: Vec, n: Mat3, u: Vec)
    ensures Product(Homogeneous(m, t), Homogeneous(n, u))
         == Homogeneous(Mat3(n.Transposed().Apply(m.r0), n.Transposed().Apply(m.r1), n.Transposed().Apply(m.r2)),
                        m.Apply(u).Plus(t))
  {
    var h := Homogeneous(n, u);
    RowTimesHomogeneous(m.r0, t.x, n, u);
    RowTimesHomogeneous(m.r1, t.y, n, u);
    RowTimesHomogeneous(m.r2, t.z, n, u);
    assert RowTimes(LAST_ROW, h) == LAST_ROW;
  }

  lemma LastOfTranslation(m: Mat3, t: Vec, p: Vec)
    ensures LastColumn(Product(Homogeneous(m, t), Translation(p))) == m.Apply(p).Plus(t)
  {
    RowTimesHomogeneous(m.r0, t.x, IDENTITY3, p);
    RowTimesHomogeneous(m.r1, t.y, IDENTITY3, p);
    RowTimesHomogeneous(m.r2, t.z, IDENTITY3, p);
  }

  lemma ApplyDistributes(m: Mat3, u: Vec, v: Vec)
    ensures m.Apply(u.Plus(v)) == m.Apply(u).Plus(m.Apply(v))
  {
  }

  /** The three matrices multiply out to: turn the camera point into the hand's frame, shift it by the
      camera's mounting, rotate by the pose, and shift by its position. */
  lemma CameraToArmIs(camera: Vec, pose: Pose, offset: Vec)
    ensures CameraToArm(camera, PoseToMatrix(pose), offset)
         == QuaternionToMatrix(pose.orientation)
              .Apply(Vec(camera.z + offset.x, offset.y - camera.x, offset.z - camera.y)).Plus(pose.position)
  {
    var h := Mat3(Vec(0.0, 0.0, 1.0), Vec(-1.0, 0.0, 0.0), Vec(0.0, -1.0, 0.0));
    assert Hand2CamMatrix(offset) == Homogeneous(h, offset);
    assert h.Apply(camera) == CameraToHand(camera);
    var m := QuaternionToMatrix(pose.orientation);
    ProductOfHomogeneous(m, pose.position, h, offset);
    var mh := Mat3(h.Transposed().Apply(m.r0), h.Transposed().Apply(m.r1), h.Transposed().Apply(m.r2));
    LastOfTranslation(mh, m.Apply(offset).Plus(pose.position), camera);
    RowThroughMatrix(m.r0, h, camera);
    RowThroughMatrix(m.r1, h, camera);
    RowThroughMatrix(m.r2, h, camera);
    ApplyDistributes(m, h.Apply(camera), offset);
  }

  function SquaredDistance(p: Vec, q: Vec): real {
    p.Minus(q).Dot(p.Minus(q))
  }

  /** The squared length of a product, from the inner products of the columns. */
  lemma LengthFromColumns(a: Vec, b: Vec, c: Vec, v: Vec)
    requires a.Dot(a) == 1.0 && b.Dot(b) == 1.0 && c.Dot(c) == 1.0
    requires a.Dot(b) == 0.0 && a.Dot(c) == 0.0 && b.Dot(c) == 0.0
    ensures var m := Mat3(a, b, c).Transposed(); m.Apply(v).Dot(m.Apply(v)) == v.Dot(v)
  {
    var (x, y, z) := (v.x, v.y, v.z);
    SquareOfSum(a.x, b.x, c.x, x, y, z);
    SquareOfSum(a.y, b.y, c.y, x, y, z);
    SquareOfSum(a.z, b.z, c.z, x, y, z);
    var ab, ac, bc := a.Dot(b), a.Dot(c), b.Dot(c);
    assert a.Dot(a) * (x * x) == a.x * a.x * (x * x) + a.y * a.y * (x * x) + a.z * a.z * (x * x);
    assert b.Dot(b) * (y * y) == b.x * b.x * (y * y) + b.y * b.y * (y * y) + b.z * b.z * (y * y);
    assert c.Dot(c) * (z * z) == c.x * c.x * (z * z) + c.y * c.y * (z * z) + c.z * c.z * (z * z);
    assert ab * (x * y) == a.x * b.x * (x * y) + a.y * b.y * (x * y) + a.z * b.z * (x * y);
    assert ac * (x * z) == a.x * c.x * (x * z) + a.y * c.y * (x * z) + a.z * c.z * (x * z);
    assert bc * (y * z) == b.x * c.x * (y * z) + b.y * c.y * (y * z) + b.z * c.z * (y * z);
  }

  lemma SquareOfSum(a: real, b: real, c: real, x: real, y: real, z: real)
    ensures (a * x + b * y + c * z) * (a * x + b * y + c * z)
         == a * a * (x * x) + b * b * (y * y) + c * c * (z * z)
            + 2.0 * (a * b * (x * y)) + 2.0 * (a * c * (x * z)) + 2.0 * (b * c * (y * z))
  {
  }

  lemma ApplyKeepsLength(q: Quaternion, v: Vec)
    ensures QuaternionToMatrix(q).Apply(v).Dot(QuaternionToMatrix(q).Apply(v)) == v.Dot(v)
  {
    var t := QuaternionToMatrix(q).Transposed();
    ConjugateTransposes(q);
    MatrixIsRotation(q.Conjugate());
    LengthFromColumns(t.r0, t.r1, t.r2, v);
  }

  lemma ApplyIsLinear(m: Mat3, u: Vec, v: Vec, t: Vec, o: Vec)
    ensures m.Apply(u.Plus(o)).Plus(t).Minus(m.Apply(v.Plus(o)).Plus(t)) == m.Apply(u.Minus(v))
  {
  }

  /** The map from camera points to arm points is rigid: it preserves the distance between any two
      points, whatever the pose and the mounting. */
  lemma CameraToArmKeepsDistance(p: Vec, q: Vec, pose: Pose, offset: Vec)
    ensures var e := PoseToMatrix(pose);
            SquaredDistance(CameraToArm(p, e, offset), CameraToArm(q, e, offset)) == SquaredDistance(p, q)
  {
    var m := QuaternionToMatrix(pose.orientation);
    var hp, hq := CameraToHand(p), CameraToHand(q);
    CameraToArmIs(p, pose, offset);
    CameraToArmIs(q, pose, offset);
    ApplyIsLinear(m, hp, hq, pose.position, offset);
    ApplyKeepsLength(pose.orientation, hp.Minus(hq));
    var d := p.Minus(q);
    assert hp.Minus(hq) == Vec(d.z, -d.x, -d.y);
    assert hp.Minus(hq).Dot(hp.Minus(hq)) == d.Dot(d);
  }
}
