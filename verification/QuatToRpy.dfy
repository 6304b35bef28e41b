/** `quat_to_rpy` over exact reals. An angle is given by its cosine and sine, so that an
    angle returned by `math.atan2` or `math.asin` is described by what those functions
    promise, and by nothing else. */
module QuatToRpy {
  import opened RealAlgebra

  datatype Quat = Quat(x: real, y: real, z: real, w: real)

  /** cos and sin of an angle */
  datatype Angle = Angle(c: real, s: real)

  datatype Rpy = Rpy(roll: Angle, pitch: Angle, yaw: Angle)

  datatype Matrix = Matrix(
    m11: real, m12: real, m13: real,
    m21: real, m22: real, m23: real,
    m31: real, m32: real, m33: real)

  predicate Unit(q: Quat) {
    q.x * q.x + q.y * q.y + q.z * q.z + q.w * q.w == 1.0
  }

  predicate OnCircle(a: Angle) {
    a.c * a.c + a.s * a.s == 1.0
  }

  // The math library

  /** `a == atan2(s, c)`: the angle of the direction (c, s), and zero if there is none. */
  predicate IsAtan2(a: Angle, s: real, c: real) {
    && OnCircle(a)
    && (c == 0.0 && s == 0.0 ==> a == Angle(1.0, 0.0))
    && a.c * s == a.s * c
    && (c != 0.0 || s != 0.0 ==> a.c * c + a.s * s > 0.0)
  }

  /** `a == asin(s)`: the angle of sine `s` in the right half circle. */
  predicate IsAsin(a: Angle, s: real) {
    OnCircle(a) && a.s == s && a.c >= 0.0
  }

  datatype MathLib = MathLib(atan2: (real, real) -> Angle, asin: real -> Angle)

  // The function

  function SinrCosp(q: Quat): real { 2.0 * (q.w * q.x + q.y * q.z) }
  function CosrCosp(q: Quat): real { 1.0 - 2.0 * (q.x * q.x + q.y * q.y) }
  function Sinp(q: Quat): real { 2.0 * (q.w * q.y - q.z * q.x) }
  function SinyCosp(q: Quat): real { 2.0 * (q.w * q.z + q.x * q.y) }
  function CosyCosp(q: Quat): real { 1.0 - 2.0 * (q.y * q.y + q.z * q.z) }

  predicate Clamped(q: Quat) {
    Sinp(q) >= 1.0 || Sinp(q) <= -1.0
  }

  function QuatToRpy(m: MathLib, q: Quat): Rpy {
    var roll := m.atan2(SinrCosp(q), CosrCosp(q));
    var sinp := Sinp(q);
    var pitch := if Clamped(q) then Angle(0.0, if sinp > 0.0 then 1.0 else -1.0) else m.asin(sinp);
    var yaw := m.atan2(SinyCosp(q), CosyCosp(q));
    Rpy(roll, pitch, yaw)
  }

  /** The library keeps its promise on the arguments the function passes for `q`. */
  predicate Sound(m: MathLib, q: Quat) {
    && IsAtan2(m.atan2(SinrCosp(q), CosrCosp(q)), SinrCosp(q), CosrCosp(q))
    && IsAtan2(m.atan2(SinyCosp(q), CosyCosp(q)), SinyCosp(q), CosyCosp(q))
    && (!Clamped(q) ==> IsAsin(m.asin(Sinp(q)), Sinp(q)))
  }

  // Rotations

  /** The rotation matrix of a unit quaternion. */
  function Rotation(q: Quat): Matrix {
    Matrix(
      1.0 - 2.0 * (q.y * q.y + q.z * q.z), 2.0 * (q.x * q.y - q.w * q.z), 2.0 * (q.x * q.z + q.w * q.y),
      2.0 * (q.x * q.y + q.w * q.z), 1.0 - 2.0 * (q.x * q.x + q.z * q.z), 2.0 * (q.y * q.z - q.w * q.x),
      2.0 * (q.x * q.z - q.w * q.y), 2.0 * (q.y * q.z + q.w * q.x), 1.0 - 2.0 * (q.x * q.x + q.y * q.y))
  }

  function Times(a: Matrix, b: Matrix): Matrix {
    Matrix(
      a.m11 * b.m11 + a.m12 * b.m21 + a.m13 * b.m31,
      a.m11 * b.m12 + a.m12 * b.m22 + a.m13 * b.m32,
      a.m11 * b.m13 + a.m12 * b.m23 + a.m13 * b.m33,
      a.m21 * b.m11 + a.m22 * b.m21 + a.m23 * b.m31,
      a.m21 * b.m12 + a.m22 * b.m22 + a.m23 * b.m32,
      a.m21 * b.m13 + a.m22 * b.m23 + a.m23 * b.m33,
      a.m31 * b.m11 + a.m32 * b.m21 + a.m33 * b.m31,
      a.m31 * b.m12 + a.m32 * b.m22 + a.m33 * b.m32,
      a.m31 * b.m13 + a.m32 * b.m23 + a.m33 * b.m33)
  }

  function Rx(a: Angle): Matrix {
    Matrix(1.0, 0.0, 0.0, 0.0, a.c, -a.s, 0.0, a.s, a.c)
  }

  function Ry(a: Angle): Matrix {
    Matrix(a.c, 0.0, a.s, 0.0, 1.0, 0.0, -a.s, 0.0, a.c)
  }

  function Rz(a: Angle): Matrix {
    Matrix(a.c, -a.s, 0.0, a.s, a.c, 0.0, 0.0, 0.0, 1.0)
  }

  /** Roll about x, then pitch about y, then yaw about z. */
  function Rebuild(r: Rpy): Matrix {
    Times(Times(Rz(r.yaw), Ry(r.pitch)), Rx(r.roll))
  }

  // Quaternions and vectors

  datatype Vec = Vec(a: real, b: real, c: real)

  /** Quaternion product. */
  function Mul(p: Quat, q: Quat): Quat {
    Quat(
      p.w * q.x + p.x * q.w + p.y * q.z - p.z * q.y,
      p.w * q.y + p.y * q.w + p.z * q.x - p.x * q.z,
      p.w * q.z + p.x * q.y + p.z * q.w - p.y * q.x,
      p.w * q.w - p.x * q.x - p.y * q.y - p.z * q.z)
  }

  function Conj(q: Quat): Quat { Quat(-q.x, -q.y, -q.z, q.w) }

  function Neg(q: Quat): Quat { Quat(-q.x, -q.y, -q.z, -q.w) }

  function Pure(v: Vec): Quat { Quat(v.a, v.b, v.c, 0.0) }

  function Apply(m: Matrix, v: Vec): Vec {
    Vec(m.m11 * v.a + m.m12 * v.b + m.m13 * v.c,
        m.m21 * v.a + m.m22 * v.b + m.m23 * v.c,
        m.m31 * v.a + m.m32 * v.b + m.m33 * v.c)
  }

  // Relations among reals. A lemma about polynomials hands its result on as one of these.

  predicate Perpendicular(a1: real, a2: real, a3: real, b1: real, b2: real, b3: real) {
    a1 * b1 + a2 * b2 + a3 * b3 == 0.0
  }

  predicate IsCross(c: real, a1: real, b1: real, a2: real, b2: real) {
    c == a1 * b1 - a2 * b2
  }

  predicate OneLessSquare(a: real, b: real, s: real) {
    a * a + b * b == 1.0 - s * s
  }

  predicate IsCrossTimes(c: real, n: real, a1: real, b1: real, a2: real, b2: real) {
    c * n == a1 * b1 - a2 * b2
  }

  predicate IsProduct(c: real, a: real, b: real) {
    c == a * b
  }

  predicate SquaresAdd(a: real, b: real, n: real) {
    a * a + b * b == n * n
  }

  predicate IsMixed(t: real, a: real, b: real, c: real, d: real, e: real) {
    t == a * b * c - d * e
  }

  // The rotation matrix is orthogonal

  /** The last row is orthogonal to the others, and the first column is the cross product
      of the other two. */
  predicate Orthogonal(r: Matrix) {
    && Perpendicular(r.m11, r.m12, r.m13, r.m31, r.m32, r.m33)
    && Perpendicular(r.m21, r.m22, r.m23, r.m31, r.m32, r.m33)
    && IsCross(r.m11, r.m22, r.m33, r.m32, r.m23)
    && IsCross(r.m21, r.m32, r.m13, r.m12, r.m33)
  }

  function Norm(q: Quat): real { q.x * q.x + q.y * q.y + q.z * q.z + q.w * q.w }

  // The diagonal, made homogeneous

  function H11(q: Quat): real { q.w * q.w + q.x * q.x - q.y * q.y - q.z * q.z }
  function H22(q: Quat): real { q.w * q.w - q.x * q.x + q.y * q.y - q.z * q.z }
  function H33(q: Quat): real { q.w * q.w - q.x * q.x - q.y * q.y + q.z * q.z }

  lemma DiagonalTerms(q: Quat)
    requires Unit(q)
    ensures 1.0 - 2.0 * (q.y * q.y + q.z * q.z) == H11(q)
    ensures 1.0 - 2.0 * (q.x * q.x + q.z * q.z) == H22(q)
    ensures 1.0 - 2.0 * (q.x * q.x + q.y * q.y) == H33(q)
  {
  }

  lemma Diagonal(q: Quat)
    requires Unit(q)
    ensures var r := Rotation(q); r.m11 == H11(q) && r.m22 == H22(q) && r.m33 == H33(q)
  {
    DiagonalTerms(q);
  }

  // What the terms above stand for

  lemma DiagonalPolynomials(q: Quat)
    ensures H11(q) == q.w*q.w + q.x*q.x - q.y*q.y - q.z*q.z
    ensures H22(q) == q.w*q.w - q.x*q.x + q.y*q.y - q.z*q.z
    ensures H33(q) == q.w*q.w - q.x*q.x - q.y*q.y + q.z*q.z
    ensures Norm(q) == q.x*q.x + q.y*q.y + q.z*q.z + q.w*q.w
  {
  }

  lemma OffDiagonalPolynomials(q: Quat)
    ensures var r := Rotation(q);
      && r.m12 == 2.0 * (q.x * q.y - q.w * q.z)
      && r.m13 == 2.0 * (q.x * q.z + q.w * q.y)
      && r.m21 == 2.0 * (q.x * q.y + q.w * q.z)
      && r.m23 == 2.0 * (q.y * q.z - q.w * q.x)
      && r.m31 == 2.0 * (q.x * q.z - q.w * q.y)
      && r.m32 == 2.0 * (q.y * q.z + q.w * q.x)
  {
  }

  lemma RowOneRowThreePolynomial(q: Quat)
    ensures Perpendicular(
      q.w*q.w + q.x*q.x - q.y*q.y - q.z*q.z, 2.0 * (q.x * q.y - q.w * q.z), 2.0 * (q.x * q.z + q.w * q.y),
      2.0 * (q.x * q.z - q.w * q.y), 2.0 * (q.y * q.z + q.w * q.x), q.w*q.w - q.x*q.x - q.y*q.y + q.z*q.z)
  {
  }

  lemma RowOneRowThree(q: Quat)
    ensures var r := Rotation(q); Perpendicular(H11(q), r.m12, r.m13, r.m31, r.m32, H33(q))
  {
    hide *;
    RowOneRowThreePolynomial(q);
    DiagonalPolynomials(q);
    OffDiagonalPolynomials(q);
  }

  lemma RowTwoRowThreePolynomial(q: Quat)
    ensures Perpendicular(
      2.0 * (q.x * q.y + q.w * q.z), q.w*q.w - q.x*q.x + q.y*q.y - q.z*q.z, 2.0 * (q.y * q.z - q.w * q.x),
      2.0 * (q.x * q.z - q.w * q.y), 2.0 * (q.y * q.z + q.w * q.x), q.w*q.w - q.x*q.x - q.y*q.y + q.z*q.z)
  {
  }

  lemma RowTwoRowThree(q: Quat)
    ensures var r := Rotation(q); Perpendicular(r.m21, H22(q), r.m23, r.m31, r.m32, H33(q))
  {
    hide *;
    RowTwoRowThreePolynomial(q);
    DiagonalPolynomials(q);
    OffDiagonalPolynomials(q);
  }

  lemma CrossXPolynomial(q: Quat)
    ensures IsCrossTimes(
      q.w*q.w + q.x*q.x - q.y*q.y - q.z*q.z, q.x*q.x + q.y*q.y + q.z*q.z + q.w*q.w,
      q.w*q.w - q.x*q.x + q.y*q.y - q.z*q.z, q.w*q.w - q.x*q.x - q.y*q.y + q.z*q.z,
      2.0 * (q.y * q.z + q.w * q.x), 2.0 * (q.y * q.z - q.w * q.x))
  {
  }

  lemma CrossX(q: Quat)
    ensures var r := Rotation(q); IsCrossTimes(H11(q), Norm(q), H22(q), H33(q), r.m32, r.m23)
  {
    hide *;
    CrossXPolynomial(q);
    DiagonalPolynomials(q);
    OffDiagonalPolynomials(q);
  }

  lemma CrossYPolynomial(q: Quat)
    ensures IsCrossTimes(
      2.0 * (q.x * q.y + q.w * q.z), q.x*q.x + q.y*q.y + q.z*q.z + q.w*q.w,
      2.0 * (q.y * q.z + q.w * q.x), 2.0 * (q.x * q.z + q.w * q.y),
      2.0 * (q.x * q.y - q.w * q.z), q.w*q.w - q.x*q.x - q.y*q.y + q.z*q.z)
  {
  }

  lemma CrossY(q: Quat)
    ensures var r := Rotation(q); IsCrossTimes(r.m21, Norm(q), r.m32, r.m13, r.m12, H33(q))
  {
    hide *;
    CrossYPolynomial(q);
    DiagonalPolynomials(q);
    OffDiagonalPolynomials(q);
  }

  lemma Rows(q: Quat)
    requires Unit(q)
    ensures var r := Rotation(q);
      && Perpendicular(r.m11, r.m12, r.m13, r.m31, r.m32, r.m33)
      && Perpendicular(r.m21, r.m22, r.m23, r.m31, r.m32, r.m33)
  {
    hide Perpendicular;
    RowOneRowThree(q);
    RowTwoRowThree(q);
    Diagonal(q);
  }

  lemma DropNorm(c: real, n: real, a1: real, b1: real, a2: real, b2: real)
    requires n == 1.0 && IsCrossTimes(c, n, a1, b1, a2, b2)
    ensures IsCross(c, a1, b1, a2, b2)
  {
    Scale(n, 1.0, c);
  }

  lemma FirstColumn(q: Quat)
    requires Unit(q)
    ensures var r := Rotation(q);
      IsCross(r.m11, r.m22, r.m33, r.m32, r.m23) && IsCross(r.m21, r.m32, r.m13, r.m12, r.m33)
  {
    hide IsCross, IsCrossTimes;
    CrossX(q);
    CrossY(q);
    Diagonal(q);
    var r := Rotation(q);
    DropNorm(H11(q), Norm(q), H22(q), H33(q), r.m32, r.m23);
    DropNorm(r.m21, Norm(q), r.m32, r.m13, r.m12, H33(q));
  }

  lemma RotationIsOrthogonal(q: Quat)
    requires Unit(q)
    ensures Orthogonal(Rotation(q))
  {
    hide Perpendicular, IsCross;
    Rows(q);
    FirstColumn(q);
  }

  // The matrix is the quaternion's rotation

  /** A row of a matrix applied to (a, b, c) is one coordinate of a quaternion product. */
  predicate IsSandwich(m1: real, m2: real, m3: real, v: Vec,
                       p1: real, c1: real, p2: real, c2: real, p3: real, c3: real, p4: real, c4: real) {
    m1 * v.a + m2 * v.b + m3 * v.c == p1 * c1 + p2 * c2 + p3 * c3 - p4 * c4
  }

  // The coordinates of q v

  function PX(q: Quat, v: Vec): real { q.w*v.a + q.y*v.c - q.z*v.b }
  function PY(q: Quat, v: Vec): real { q.w*v.b + q.z*v.a - q.x*v.c }
  function PZ(q: Quat, v: Vec): real { q.w*v.c + q.x*v.b - q.y*v.a }
  function PW(q: Quat, v: Vec): real { -q.x*v.a - q.y*v.b - q.z*v.c }

  lemma CoordinatePolynomials(q: Quat, v: Vec)
    ensures PX(q, v) == q.w*v.a + q.y*v.c - q.z*v.b
    ensures PY(q, v) == q.w*v.b + q.z*v.a - q.x*v.c
    ensures PZ(q, v) == q.w*v.c + q.x*v.b - q.y*v.a
    ensures PW(q, v) == -q.x*v.a - q.y*v.b - q.z*v.c
  {
  }

  lemma ConjCoordinates(q: Quat)
    ensures var c := Conj(q); c.x == -q.x && c.y == -q.y && c.z == -q.z && c.w == q.w
  {
  }

  lemma PureProduct(q: Quat, v: Vec)
    ensures Mul(q, Pure(v)) == Quat(PX(q, v), PY(q, v), PZ(q, v), PW(q, v))
  {
  }

  lemma SandwichXPolynomial(q: Quat, v: Vec)
    ensures IsSandwich(
      q.w*q.w + q.x*q.x - q.y*q.y - q.z*q.z, 2.0*(q.x*q.y - q.w*q.z), 2.0*(q.x*q.z + q.w*q.y), v,
      -q.x*v.a - q.y*v.b - q.z*v.c, -q.x,
      q.w*v.a + q.y*v.c - q.z*v.b, q.w,
      q.w*v.b + q.z*v.a - q.x*v.c, -q.z,
      q.w*v.c + q.x*v.b - q.y*v.a, -q.y)
  {
  }

  lemma SandwichX(q: Quat, v: Vec)
    ensures var r, c := Rotation(q), Conj(q); IsSandwich(H11(q), r.m12, r.m13, v,
      PW(q, v), c.x, PX(q, v), c.w, PY(q, v), c.z, PZ(q, v), c.y)
  {
    hide *;
    SandwichXPolynomial(q, v);
    DiagonalPolynomials(q);
    OffDiagonalPolynomials(q);
    CoordinatePolynomials(q, v);
    ConjCoordinates(q);
  }

  lemma SandwichYPolynomial(q: Quat, v: Vec)
    ensures IsSandwich(
      2.0*(q.x*q.y + q.w*q.z), q.w*q.w - q.x*q.x + q.y*q.y - q.z*q.z, 2.0*(q.y*q.z - q.w*q.x), v,
      -q.x*v.a - q.y*v.b - q.z*v.c, -q.y,
      q.w*v.b + q.z*v.a - q.x*v.c, q.w,
      q.w*v.c + q.x*v.b - q.y*v.a, -q.x,
      q.w*v.a + q.y*v.c - q.z*v.b, -q.z)
  {
  }

  lemma SandwichY(q: Quat, v: Vec)
    ensures var r, c := Rotation(q), Conj(q); IsSandwich(r.m21, H22(q), r.m23, v,
      PW(q, v), c.y, PY(q, v), c.w, PZ(q, v), c.x, PX(q, v), c.z)
  {
    hide *;
    SandwichYPolynomial(q, v);
    DiagonalPolynomials(q);
    OffDiagonalPolynomials(q);
    CoordinatePolynomials(q, v);
    ConjCoordinates(q);
  }

  lemma SandwichZPolynomial(q: Quat, v: Vec)
    ensures IsSandwich(
      2.0*(q.x*q.z - q.w*q.y), 2.0*(q.y*q.z + q.w*q.x), q.w*q.w - q.x*q.x - q.y*q.y + q.z*q.z, v,
      -q.x*v.a - q.y*v.b - q.z*v.c, -q.z,
      q.w*v.a + q.y*v.c - q.z*v.b, -q.y,
      q.w*v.c + q.x*v.b - q.y*v.a, q.w,
      q.w*v.b + q.z*v.a - q.x*v.c, -q.x)
  {
  }

  lemma SandwichZ(q: Quat, v: Vec)
    ensures var r, c := Rotation(q), Conj(q); IsSandwich(r.m31, r.m32, H33(q), v,
      PW(q, v), c.z, PX(q, v), c.y, PZ(q, v), c.w, PY(q, v), c.x)
  {
    hide *;
    SandwichZPolynomial(q, v);
    DiagonalPolynomials(q);
    OffDiagonalPolynomials(q);
    CoordinatePolynomials(q, v);
    ConjCoordinates(q);
  }

  lemma SandwichScalar(q: Quat, v: Vec)
    ensures var c := Conj(q);
      PW(q, v) * c.w - PX(q, v) * c.x - PY(q, v) * c.y - PZ(q, v) * c.z == 0.0
  {
  }

  lemma SandwichAt(v: Vec, p: Quat, c: Quat, r: Matrix)
    requires IsSandwich(r.m11, r.m12, r.m13, v, p.w, c.x, p.x, c.w, p.y, c.z, p.z, c.y)
    requires IsSandwich(r.m21, r.m22, r.m23, v, p.w, c.y, p.y, c.w, p.z, c.x, p.x, c.z)
    requires IsSandwich(r.m31, r.m32, r.m33, v, p.w, c.z, p.x, c.y, p.z, c.w, p.y, c.x)
    requires p.w * c.w - p.x * c.x - p.y * c.y - p.z * c.z == 0.0
    ensures Mul(p, c) == Pure(Apply(r, v))
  {
  }

  /** The matrix moves a vector the way the quaternion does, as q v q*. */
  lemma RotationIsConjugation(q: Quat, v: Vec)
    requires Unit(q)
    ensures Mul(Mul(q, Pure(v)), Conj(q)) == Pure(Apply(Rotation(q), v))
  {
    hide IsSandwich, Mul, Apply, PX, PY, PZ, PW, H11, H22, H33;
    PureProduct(q, v);
    Diagonal(q);
    SandwichX(q, v);
    SandwichY(q, v);
    SandwichZ(q, v);
    SandwichScalar(q, v);
    var p := Mul(q, Pure(v));
    SandwichAt(v, p, Conj(q), Rotation(q));
  }

  // The clamp

  predicate LengthWithin(a: real, b: real, n: real, s: real) {
    a * a + b * b == n * n - s * s
  }

  lemma RollPolynomial(q: Quat)
    ensures LengthWithin(2.0 * (q.w * q.x + q.y * q.z), q.w*q.w - q.x*q.x - q.y*q.y + q.z*q.z,
      q.x*q.x + q.y*q.y + q.z*q.z + q.w*q.w, 2.0 * (q.w * q.y - q.z * q.x))
  {
  }

  lemma YawPolynomial(q: Quat)
    ensures LengthWithin(2.0 * (q.w * q.z + q.x * q.y), q.w*q.w + q.x*q.x - q.y*q.y - q.z*q.z,
      q.x*q.x + q.y*q.y + q.z*q.z + q.w*q.w, 2.0 * (q.w * q.y - q.z * q.x))
  {
  }

  lemma SinePolynomials(q: Quat)
    ensures SinrCosp(q) == 2.0 * (q.w * q.x + q.y * q.z)
    ensures SinyCosp(q) == 2.0 * (q.w * q.z + q.x * q.y)
    ensures Sinp(q) == 2.0 * (q.w * q.y - q.z * q.x)
  {
  }

  lemma CosinesAreDiagonal(q: Quat)
    requires Unit(q)
    ensures CosrCosp(q) == H33(q) && CosyCosp(q) == H11(q) && Norm(q) == 1.0
  {
    DiagonalTerms(q);
  }

  lemma WithinUnit(a: real, b: real, n: real, s: real)
    requires n == 1.0 && LengthWithin(a, b, n, s)
    ensures OneLessSquare(a, b, s)
  {
    SquareOf(n, 1.0);
  }

  lemma RollLength(q: Quat)
    requires Unit(q)
    ensures OneLessSquare(SinrCosp(q), CosrCosp(q), Sinp(q))
  {
    hide *;
    RollPolynomial(q);
    DiagonalPolynomials(q);
    SinePolynomials(q);
    CosinesAreDiagonal(q);
    WithinUnit(SinrCosp(q), CosrCosp(q), Norm(q), Sinp(q));
  }

  lemma YawLength(q: Quat)
    requires Unit(q)
    ensures OneLessSquare(SinyCosp(q), CosyCosp(q), Sinp(q))
  {
    hide *;
    YawPolynomial(q);
    DiagonalPolynomials(q);
    SinePolynomials(q);
    CosinesAreDiagonal(q);
    WithinUnit(SinyCosp(q), CosyCosp(q), Norm(q), Sinp(q));
  }

  lemma SineBound(a: real, b: real, s: real)
    requires OneLessSquare(a, b, s)
    ensures -1.0 <= s <= 1.0
    ensures s == 1.0 || s == -1.0 <==> a == 0.0 && b == 0.0
  {
    SquareNonNegative(a);
    SquareNonNegative(b);
    assert (1.0 - s) * (1.0 + s) == 1.0 - s * s;
    if s > 1.0 { Positive(s - 1.0, 1.0 + s); }
    if s < -1.0 { Positive(1.0 - s, -s - 1.0); }
    if s == 1.0 || s == -1.0 {
      SumOfSquares(a, b);
    } else if a == 0.0 && b == 0.0 {
      ZeroProduct(1.0 - s, 1.0 + s);
    }
  }

  /** Both `atan2` calls are given vectors of length `sqrt(1 - sinp^2)`; so `|sinp|` never
      exceeds 1, and the clamp is taken at exactly 1 or -1, which is where both vectors
      are (0, 0) and only there. */
  lemma ClampIsGimbal(q: Quat)
    requires Unit(q)
    ensures OneLessSquare(SinrCosp(q), CosrCosp(q), Sinp(q)) && OneLessSquare(SinyCosp(q), CosyCosp(q), Sinp(q))
    ensures -1.0 <= Sinp(q) <= 1.0
    ensures Clamped(q) <==> Sinp(q) == 1.0 || Sinp(q) == -1.0
    ensures Clamped(q) <==> SinrCosp(q) == 0.0 && CosrCosp(q) == 0.0
    ensures Clamped(q) <==> SinyCosp(q) == 0.0 && CosyCosp(q) == 0.0
  {
    hide OneLessSquare, SinrCosp, CosrCosp, SinyCosp, CosyCosp, Sinp;
    RollLength(q);
    YawLength(q);
    SineBound(SinrCosp(q), CosrCosp(q), Sinp(q));
    SineBound(SinyCosp(q), CosyCosp(q), Sinp(q));
  }

  // The angles

  lemma Direction(p: real, q: real, u: real, v: real)
    requires p * p + q * q == 1.0 && p * v == q * u
    ensures u == p * (p * u + q * v)
  {
    calc {
      p * (p * u + q * v);
      p * p * u + q * (p * v);
      { Scale(p * v, q * u, q); }
      p * p * u + q * (q * u);
      (p * p + q * q) * u;
      { Scale(p * p + q * q, 1.0, u); }
      u;
    }
  }

  lemma SquaredLength(p: real, q: real, u: real, v: real, d: real)
    requires p * p + q * q == 1.0 && u == p * d && v == q * d
    ensures u * u + v * v == d * d
  {
    calc {
      u * u + v * v;
      { SquareOf(u, p * d); SquareOf(v, q * d); }
      (p * d) * (p * d) + (q * d) * (q * d);
      (p * p + q * q) * (d * d);
      { Scale(p * p + q * q, 1.0, d * d); }
      d * d;
    }
  }

  /** A nonzero vector is its length times the direction `atan2` gives. */
  lemma Polar(a: Angle, s: real, c: real, n: real)
    requires IsAtan2(a, s, c) && n > 0.0 && n * n == c * c + s * s
    ensures IsProduct(c, n, a.c) && IsProduct(s, n, a.s)
  {
    var d := a.c * c + a.s * s;
    Positive(n, n);
    Direction(a.c, a.s, c, s);
    Direction(a.s, a.c, s, c);
    SquaredLength(a.c, a.s, c, s, d);
    SameSquare(n, d);
  }

  // The round trip

  /** A row of the matrix from its first entry `u`, the last row and its companion `v`. */
  lemma RestOfRow(u: real, v: real, m2: real, m3: real, r31: real, r32: real, r33: real, d: real)
    requires Perpendicular(u, m2, m3, r31, r32, r33)
    requires v == r32 * m3 - m2 * r33
    requires r32 * r32 + r33 * r33 == d
    ensures m2 * d == -(u * r31) * r32 - v * r33
    ensures m3 * d == -(u * r31) * r33 + v * r32
  {
    Scale(m2 * r32 + m3 * r33, -(u * r31), r32);
    Scale(m2 * r32 + m3 * r33, -(u * r31), r33);
    Scale(v, r32 * m3 - m2 * r33, r33);
    Scale(v, r32 * m3 - m2 * r33, r32);
    Scale(d, r32 * r32 + r33 * r33, m2);
    Scale(d, r32 * r32 + r33 * r33, m3);
  }

  // The same from the angles: (a, b) is the yaw's cosine and sine for the first row, and
  // its sine and negated cosine for the second.

  lemma SecondEntry(u: real, v: real, m2: real, m3: real, r31: real, r32: real, r33: real,
                      n: real, a: real, b: real, ps: real, rc: real, rs: real)
    requires Perpendicular(u, m2, m3, r31, r32, r33) && IsCross(v, r32, m3, m2, r33)
    requires n > 0.0 && SquaresAdd(r32, r33, n)
    requires IsProduct(u, n, a) && IsProduct(v, n, b) && r31 == -ps
    requires IsProduct(r32, n, rs) && IsProduct(r33, n, rc)
    ensures IsMixed(m2, a, ps, rs, b, rc)
  {
    RestOfRow(u, v, m2, m3, r31, r32, r33, n * n);
    var t := a * ps * rs - b * rc;
    calc {
      n * n * m2;
      -(u * r31) * r32 - v * r33;
      { TripleProduct(u, -r31, r32, n * a, ps, n * rs); ProductOf(v, n * b, r33, n * rc); }
      n * a * ps * (n * rs) - n * b * (n * rc);
      n * n * (a * ps * rs - b * rc);
      { Scale(t, a * ps * rs - b * rc, n * n); }
      n * n * t;
    }
    CancelSquare(n, m2, t);
  }

  lemma ThirdEntry(u: real, v: real, m2: real, m3: real, r31: real, r32: real, r33: real,
                      n: real, a: real, b: real, ps: real, rc: real, rs: real)
    requires Perpendicular(u, m2, m3, r31, r32, r33) && IsCross(v, r32, m3, m2, r33)
    requires n > 0.0 && SquaresAdd(r32, r33, n)
    requires IsProduct(u, n, a) && IsProduct(v, n, b) && r31 == -ps
    requires IsProduct(r32, n, rs) && IsProduct(r33, n, rc)
    ensures IsMixed(m3, a, ps, rc, -b, rs)
  {
    RestOfRow(u, v, m2, m3, r31, r32, r33, n * n);
    var t := a * ps * rc + b * rs;
    calc {
      n * n * m3;
      -(u * r31) * r33 + v * r32;
      { TripleProduct(u, -r31, r33, n * a, ps, n * rc); ProductOf(v, n * b, r32, n * rs); }
      n * a * ps * (n * rc) + n * b * (n * rs);
      n * n * (a * ps * rc + b * rs);
      { Scale(t, a * ps * rc + b * rs, n * n); }
      n * n * t;
    }
    CancelSquare(n, m3, t);
  }

  lemma YawTimesPitch(yaw: Angle, pitch: Angle)
    ensures Times(Rz(yaw), Ry(pitch)) == Matrix(
      yaw.c * pitch.c, -yaw.s, yaw.c * pitch.s,
      yaw.s * pitch.c, yaw.c, yaw.s * pitch.s,
      -pitch.s, 0.0, pitch.c)
  {
  }

  lemma TimesRoll(m: Matrix, roll: Angle)
    ensures Times(m, Rx(roll)) == Matrix(
      m.m11, m.m12 * roll.c + m.m13 * roll.s, m.m13 * roll.c - m.m12 * roll.s,
      m.m21, m.m22 * roll.c + m.m23 * roll.s, m.m23 * roll.c - m.m22 * roll.s,
      m.m31, m.m32 * roll.c + m.m33 * roll.s, m.m33 * roll.c - m.m32 * roll.s)
  {
  }

  /** `Rebuild`, multiplied out. */
  lemma RebuildEntries(r: Rpy)
    ensures var Rpy(roll, pitch, yaw) := r;
      Rebuild(r) == Matrix(
        yaw.c * pitch.c,
        yaw.c * pitch.s * roll.s - yaw.s * roll.c,
        yaw.c * pitch.s * roll.c + yaw.s * roll.s,
        yaw.s * pitch.c,
        yaw.s * pitch.s * roll.s + yaw.c * roll.c,
        yaw.s * pitch.s * roll.c - yaw.c * roll.s,
        -pitch.s, pitch.c * roll.s, pitch.c * roll.c)
  {
    hide Times, Rz, Ry, Rx;
    YawTimesPitch(r.yaw, r.pitch);
    TimesRoll(Times(Rz(r.yaw), Ry(r.pitch)), r.roll);
  }

  lemma NegatedProduct(c: real, n: real, a: real)
    requires IsProduct(c, n, a)
    ensures IsProduct(-c, n, -a)
  {
  }

  lemma NegatedCross(c: real, a1: real, b1: real, a2: real, b2: real)
    requires IsCross(c, a1, b1, a2, b2)
    ensures IsCross(-c, a2, b2, a1, b1)
  {
  }

  lemma OrthogonalParts(m: Matrix)
    requires Orthogonal(m)
    ensures Perpendicular(m.m11, m.m12, m.m13, m.m31, m.m32, m.m33)
    ensures Perpendicular(m.m21, m.m22, m.m23, m.m31, m.m32, m.m33)
    ensures IsCross(m.m21, m.m32, m.m13, m.m12, m.m33) && IsCross(-m.m11, m.m32, m.m23, m.m22, m.m33)
  {
    NegatedCross(m.m11, m.m22, m.m33, m.m32, m.m23);
  }

  lemma EntriesAreRebuilt(m: Matrix, r: Rpy)
    requires m.m31 == -r.pitch.s
    requires IsProduct(m.m11, r.pitch.c, r.yaw.c) && IsProduct(m.m21, r.pitch.c, r.yaw.s)
    requires IsProduct(m.m32, r.pitch.c, r.roll.s) && IsProduct(m.m33, r.pitch.c, r.roll.c)
    requires IsMixed(m.m12, r.yaw.c, r.pitch.s, r.roll.s, r.yaw.s, r.roll.c)
    requires IsMixed(m.m13, r.yaw.c, r.pitch.s, r.roll.c, -r.yaw.s, r.roll.s)
    requires IsMixed(m.m22, r.yaw.s, r.pitch.s, r.roll.s, -r.yaw.c, r.roll.c)
    requires IsMixed(m.m23, r.yaw.s, r.pitch.s, r.roll.c, r.yaw.c, r.roll.s)
    ensures Rebuild(r) == m
  {
    hide Rebuild;
    RebuildEntries(r);
  }

  /** An orthogonal matrix whose first column and last row are what the angles make them,
      with a positive cosine of pitch, is what the angles rebuild. */
  lemma MatrixFromAngles(m: Matrix, r: Rpy)
    requires Orthogonal(m)
    requires r.pitch.c > 0.0 && SquaresAdd(m.m32, m.m33, r.pitch.c) && m.m31 == -r.pitch.s
    requires IsProduct(m.m11, r.pitch.c, r.yaw.c) && IsProduct(m.m21, r.pitch.c, r.yaw.s)
    requires IsProduct(m.m32, r.pitch.c, r.roll.s) && IsProduct(m.m33, r.pitch.c, r.roll.c)
    ensures Rebuild(r) == m
  {
    hide *;
    var Rpy(roll, pitch, yaw) := r;
    OrthogonalParts(m);
    NegatedProduct(m.m11, pitch.c, yaw.c);
    SecondEntry(m.m11, m.m21, m.m12, m.m13, m.m31, m.m32, m.m33, pitch.c, yaw.c, yaw.s, pitch.s, roll.c, roll.s);
    ThirdEntry(m.m11, m.m21, m.m12, m.m13, m.m31, m.m32, m.m33, pitch.c, yaw.c, yaw.s, pitch.s, roll.c, roll.s);
    SecondEntry(m.m21, -m.m11, m.m22, m.m23, m.m31, m.m32, m.m33, pitch.c, yaw.s, -yaw.c, pitch.s, roll.c, roll.s);
    ThirdEntry(m.m21, -m.m11, m.m22, m.m23, m.m31, m.m32, m.m33, pitch.c, yaw.s, -yaw.c, pitch.s, roll.c, roll.s);
    EntriesAreRebuilt(m, r);
  }

  lemma PitchLength(a: real, b: real, s: real, p: Angle)
    requires OneLessSquare(a, b, s) && IsAsin(p, s) && -1.0 < s < 1.0
    ensures p.c > 0.0 && SquaresAdd(a, b, p.c)
  {
    SquareOf(p.s, s);
    assert (1.0 - s) * (1.0 + s) == 1.0 - s * s;
    Positive(1.0 - s, 1.0 + s);
    NonZero(p.c);
  }

  lemma PolarAt(a: Angle, s: real, c: real, n: real)
    requires IsAtan2(a, s, c) && n > 0.0 && SquaresAdd(s, c, n)
    ensures IsProduct(c, n, a.c) && IsProduct(s, n, a.s)
  {
    Polar(a, s, c, n);
  }

  /** The round trip: away from gimbal lock, the angles rebuild every entry of the
      quaternion's rotation matrix. */
  lemma RoundTrip(m: MathLib, q: Quat)
    requires Unit(q) && Sound(m, q) && !Clamped(q)
    ensures Rebuild(QuatToRpy(m, q)) == Rotation(q)
  {
    hide OneLessSquare, SquaresAdd, IsAtan2, IsAsin, IsProduct, Orthogonal, Rebuild;
    ClampIsGimbal(q);
    var r := QuatToRpy(m, q);
    PitchLength(SinrCosp(q), CosrCosp(q), Sinp(q), r.pitch);
    PitchLength(SinyCosp(q), CosyCosp(q), Sinp(q), r.pitch);
    PolarAt(r.roll, SinrCosp(q), CosrCosp(q), r.pitch.c);
    PolarAt(r.yaw, SinyCosp(q), CosyCosp(q), r.pitch.c);
    RotationIsOrthogonal(q);
    AsinSine(r.pitch, Sinp(q));
    FirstColumnAndLastRow(q);
    MatrixFromAngles(Rotation(q), r);
  }

  lemma AsinSine(a: Angle, s: real)
    requires IsAsin(a, s)
    ensures a.s == s && OnCircle(a)
  {
  }

  /** The five numbers the function computes are entries of the rotation matrix. */
  lemma FirstColumnAndLastRow(q: Quat)
    ensures var r := Rotation(q);
      && r.m11 == CosyCosp(q) && r.m21 == SinyCosp(q)
      && r.m31 == -Sinp(q) && r.m32 == SinrCosp(q) && r.m33 == CosrCosp(q)
  {
  }

  // Gimbal lock

  lemma UpwardIdentity(q: Quat)
    requires Unit(q)
    ensures (q.w - q.y) * (q.w - q.y) + (q.x + q.z) * (q.x + q.z) == 1.0 - Sinp(q)
    ensures (q.w + q.y) * (q.w + q.y) + (q.x - q.z) * (q.x - q.z) == 1.0 + Sinp(q)
  {
  }

  lemma GimbalForm(q: Quat)
    requires Unit(q)
    ensures Sinp(q) == 1.0 ==> q.w == q.y && q.z == -q.x
    ensures Sinp(q) == -1.0 ==> q.w == -q.y && q.z == q.x
  {
    UpwardIdentity(q);
    if Sinp(q) == 1.0 {
      SumOfSquares(q.w - q.y, q.x + q.z);
    } else if Sinp(q) == -1.0 {
      SumOfSquares(q.w + q.y, q.x - q.z);
    }
  }

  /** In gimbal lock the function reports no roll and no yaw. */
  lemma GimbalAngles(m: MathLib, q: Quat)
    requires Unit(q) && Sound(m, q) && Clamped(q)
    ensures Sinp(q) == 1.0 || Sinp(q) == -1.0
    ensures QuatToRpy(m, q) == Rpy(Angle(1.0, 0.0), Angle(0.0, Sinp(q)), Angle(1.0, 0.0))
  {
    hide SinrCosp, CosrCosp, SinyCosp, CosyCosp, Sinp, OneLessSquare;
    ClampIsGimbal(q);
  }

  lemma GimbalMatrix(s: real)
    ensures Rebuild(Rpy(Angle(1.0, 0.0), Angle(0.0, s), Angle(1.0, 0.0)))
      == Matrix(0.0, 0.0, s, 0.0, 1.0, 0.0, -s, 0.0, 0.0)
  {
  }

  lemma NoSidewaysTurn(q: Quat)
    requires Unit(q) && q.x == 0.0 && q.z == 0.0 && (q.w == q.y || q.w == -q.y)
    ensures Rotation(q) == Matrix(0.0, 0.0, Sinp(q), 0.0, 1.0, 0.0, -Sinp(q), 0.0, 0.0)
  {
    assert q.x * q.x == 0.0 && q.z * q.z == 0.0 && q.w * q.w == q.y * q.y;
    assert q.x * q.y == 0.0 && q.w * q.z == 0.0 && q.x * q.z == 0.0 && q.y * q.z == 0.0 && q.w * q.x == 0.0;
  }

  /** Exactly when the angles rebuild the rotation: always, except in gimbal lock with
      `qx` not zero, where the roll and yaw that the function reports as zero are lost. */
  lemma RoundTripIff(m: MathLib, q: Quat)
    requires Unit(q) && Sound(m, q)
    ensures Rebuild(QuatToRpy(m, q)) == Rotation(q) <==> !Clamped(q) || q.x == 0.0
  {
    if !Clamped(q) {
      RoundTrip(m, q);
    } else {
      GimbalRoundTrip(m, q);
    }
  }

  lemma GimbalRoundTrip(m: MathLib, q: Quat)
    requires Unit(q) && Sound(m, q) && Clamped(q)
    ensures Rebuild(QuatToRpy(m, q)) == Rotation(q) <==> q.x == 0.0
  {
    hide Rebuild, QuatToRpy, Sound, Clamped;
    GimbalAngles(m, q);
    GimbalMatrix(Sinp(q));
    GimbalForm(q);
    if q.x == 0.0 {
      NoSidewaysTurn(q);
    } else {
      SidewaysTurn(q);
    }
  }

  lemma SidewaysTurn(q: Quat)
    requires q.x != 0.0
    ensures Rotation(q).m22 != 1.0
  {
    SquareNonNegative(q.x);
    SquareNonNegative(q.z);
    if q.x * q.x == 0.0 { ZeroProduct(q.x, q.x); }
  }

  /** A rotation in gimbal lock that is not recovered. */
  lemma RoundTripFails(m: MathLib)
    requires Sound(m, Quat(0.5, 0.5, -0.5, 0.5))
    ensures var q := Quat(0.5, 0.5, -0.5, 0.5); Unit(q) && Rebuild(QuatToRpy(m, q)) != Rotation(q)
  {
    hide Rebuild, Rotation, QuatToRpy, Sound;
    RoundTripIff(m, Quat(0.5, 0.5, -0.5, 0.5));
  }

  // Two quaternions

  predicate SameProduct(a: real, b: real, c: real, d: real) {
    a * b == c * d
  }

  /** Component `a` of the one and `c` of the other agree in their products with every
      component. */
  predicate SameProducts(a: real, p: Quat, c: real, q: Quat) {
    && SameProduct(a, p.x, c, q.x) && SameProduct(a, p.y, c, q.y)
    && SameProduct(a, p.z, c, q.z) && SameProduct(a, p.w, c, q.w)
  }

  lemma SameSquares(p: Quat, q: Quat)
    requires Unit(p) && Unit(q) && Rotation(p) == Rotation(q)
    ensures SameProduct(p.x, p.x, q.x, q.x) && SameProduct(p.y, p.y, q.y, q.y)
    ensures SameProduct(p.z, p.z, q.z, q.z) && SameProduct(p.w, p.w, q.w, q.w)
  {
  }

  lemma SameXY(p: Quat, q: Quat)
    requires Rotation(p) == Rotation(q)
    ensures SameProduct(p.x, p.y, q.x, q.y) && SameProduct(p.w, p.z, q.w, q.z)
  {
  }

  lemma SameXZ(p: Quat, q: Quat)
    requires Rotation(p) == Rotation(q)
    ensures SameProduct(p.x, p.z, q.x, q.z) && SameProduct(p.w, p.y, q.w, q.y)
  {
  }

  lemma SameYZ(p: Quat, q: Quat)
    requires Rotation(p) == Rotation(q)
    ensures SameProduct(p.y, p.z, q.y, q.z) && SameProduct(p.w, p.x, q.w, q.x)
  {
  }

  lemma Commuted(a: real, b: real, c: real, d: real)
    requires SameProduct(a, b, c, d)
    ensures SameProduct(b, a, d, c)
  {
  }

  lemma SameRotationSameProducts(p: Quat, q: Quat)
    requires Unit(p) && Unit(q) && Rotation(p) == Rotation(q)
    ensures SameProducts(p.x, p, q.x, q) && SameProducts(p.y, p, q.y, q)
    ensures SameProducts(p.z, p, q.z, q) && SameProducts(p.w, p, q.w, q)
  {
    hide SameProduct, Unit, Rotation;
    SameSquares(p, q);
    SameXY(p, q);
    SameXZ(p, q);
    SameYZ(p, q);
    Commuted(p.x, p.y, q.x, q.y);
    Commuted(p.x, p.z, q.x, q.z);
    Commuted(p.y, p.z, q.y, q.z);
    Commuted(p.w, p.x, q.w, q.x);
    Commuted(p.w, p.y, q.w, q.y);
    Commuted(p.w, p.z, q.w, q.z);
  }

  lemma Follows(a: real, b: real, c: real, d: real)
    requires a != 0.0 && a * b == c * d
    ensures c == a ==> d == b
    ensures c == -a ==> d == -b
  {
    if c == a {
      Scale(c, a, d);
      assert a * (b - d) == 0.0;
      ZeroProduct(a, b - d);
    } else if c == -a {
      Scale(c, -a, d);
      assert a * (b + d) == 0.0;
      ZeroProduct(a, b + d);
    }
  }

  lemma SignSettled(a: real, b: real, c: real, d: real)
    requires a != 0.0 && SameProduct(a, a, c, c) && SameProduct(a, b, c, d)
    ensures c == a || c == -a
    ensures c == a ==> d == b
    ensures c == -a ==> d == -b
  {
    SameSquare(c, a);
    Follows(a, b, c, d);
  }

  /** A nonzero component settles the sign of all four. */
  lemma SignOfAll(a: real, p: Quat, c: real, q: Quat)
    requires a != 0.0 && SameProduct(a, a, c, c) && SameProducts(a, p, c, q)
    ensures q == p || q == Neg(p)
  {
    hide SameProduct;
    SignSettled(a, p.x, c, q.x);
    SignSettled(a, p.y, c, q.y);
    SignSettled(a, p.z, c, q.z);
    SignSettled(a, p.w, c, q.w);
  }

  lemma SomeComponent(p: Quat)
    requires Unit(p)
    ensures p.x != 0.0 || p.y != 0.0 || p.z != 0.0 || p.w != 0.0
  {
  }

  lemma SameRotationSameUpToSign(p: Quat, q: Quat)
    requires Unit(p) && Unit(q) && Rotation(p) == Rotation(q)
    ensures q == p || q == Neg(p)
  {
    hide Unit, Rotation, SameProduct;
    SameRotationSameProducts(p, q);
    SomeComponent(p);
    if p.x != 0.0 {
      SignOfAll(p.x, p, q.x, q);
    } else if p.y != 0.0 {
      SignOfAll(p.y, p, q.y, q);
    } else if p.z != 0.0 {
      SignOfAll(p.z, p, q.z, q);
    } else {
      SignOfAll(p.w, p, q.w, q);
    }
  }

  lemma NegationIsInvisible(m: MathLib, q: Quat)
    ensures QuatToRpy(m, Neg(q)) == QuatToRpy(m, q)
  {
    var n := Neg(q);
    assert SinrCosp(n) == SinrCosp(q) && CosrCosp(n) == CosrCosp(q) && Sinp(n) == Sinp(q);
    assert SinyCosp(n) == SinyCosp(q) && CosyCosp(n) == CosyCosp(q);
  }

  /** Away from gimbal lock the cosine of pitch is not zero; in gimbal lock it is. */
  lemma PitchTellsGimbal(m: MathLib, q: Quat)
    requires Unit(q) && Sound(m, q)
    ensures QuatToRpy(m, q).pitch.c == 0.0 <==> Clamped(q)
    ensures QuatToRpy(m, q).pitch.s == Sinp(q)
  {
    hide SinrCosp, CosrCosp, SinyCosp, CosyCosp, Sinp, OneLessSquare, SquaresAdd;
    ClampIsGimbal(q);
    if !Clamped(q) {
      PitchLength(SinrCosp(q), CosrCosp(q), Sinp(q), QuatToRpy(m, q).pitch);
    }
  }

  /** Two unit quaternions are given the same angles exactly when they are equal or
      opposite, or both are in the same gimbal lock. */
  lemma SameAnglesIff(m: MathLib, p: Quat, q: Quat)
    requires Unit(p) && Unit(q) && Sound(m, p) && Sound(m, q)
    ensures QuatToRpy(m, p) == QuatToRpy(m, q) <==>
      p == q || q == Neg(p) || (Clamped(p) && Clamped(q) && Sinp(p) == Sinp(q))
  {
    hide Unit, Sound, Clamped, Sinp, QuatToRpy, Rotation, Rebuild;
    PitchTellsGimbal(m, p);
    PitchTellsGimbal(m, q);
    NegationIsInvisible(m, p);
    if Clamped(p) && Clamped(q) {
      GimbalAngles(m, p);
      GimbalAngles(m, q);
    } else if QuatToRpy(m, p) == QuatToRpy(m, q) {
      RoundTrip(m, p);
      RoundTrip(m, q);
      SameRotationSameUpToSign(p, q);
    }
  }

  const LOCKED1 := Quat(0.5, 0.5, -0.5, 0.5)
  const LOCKED2 := Quat(0.1, 0.7, -0.1, 0.7)

  lemma BothLocked()
    ensures Unit(LOCKED1) && Unit(LOCKED2) && Clamped(LOCKED1) && Clamped(LOCKED2)
    ensures Sinp(LOCKED1) == Sinp(LOCKED2) == 1.0
    ensures LOCKED1 != LOCKED2 && LOCKED2 != Neg(LOCKED1)
  {
  }

  /** Two rotations in the same gimbal lock, neither equal nor opposite, given the same angles. */
  lemma SameAnglesApart(m: MathLib)
    requires Sound(m, LOCKED1) && Sound(m, LOCKED2)
    ensures Unit(LOCKED1) && Unit(LOCKED2) && LOCKED1 != LOCKED2 && LOCKED2 != Neg(LOCKED1)
    ensures QuatToRpy(m, LOCKED1) == QuatToRpy(m, LOCKED2)
  {
    hide *;
    BothLocked();
    var p, q := LOCKED1, LOCKED2;
    SameAnglesIff(m, p, q);
  }

  /** The direction (c, s), whose length is `n`. */
  function DirectionOf(n: real, s: real, c: real): Angle {
    if n == 0.0 then Angle(1.0, 0.0) else Angle(c / n, s / n)
  }

  lemma UnitDirection(a: real, b: real, c: real, s: real, n: real)
    requires n > 0.0 && c == a * n && s == b * n && SquaresAdd(s, c, n)
    ensures a * a + b * b == 1.0 && a * s == b * c && a * c + b * s > 0.0
  {
    var e := a * a + b * b;
    calc {
      n * n * e;
      { Scale(e, a * a + b * b, n * n); }
      (b * n) * (b * n) + (a * n) * (a * n);
      { SquareOf(s, b * n); SquareOf(c, a * n); }
      s * s + c * c;
      n * n * 1.0;
    }
    CancelSquare(n, e, 1.0);
    calc {
      a * c + b * s;
      { Scale(c, a * n, a); Scale(s, b * n, b); }
      (a * a + b * b) * n;
      { Scale(a * a + b * b, 1.0, n); }
      n;
    }
    assert a * s == b * c by { Scale(c, a * n, b); Scale(s, b * n, a); }
  }

  lemma DirectionIsAtan2(n: real, s: real, c: real)
    requires n >= 0.0 && SquaresAdd(s, c, n)
    ensures IsAtan2(DirectionOf(n, s, c), s, c)
  {
    if n == 0.0 {
      Scale(n, 0.0, n);
      SumOfSquares(s, c);
    } else {
      var a, b := c / n, s / n;
      assert c == a * n && s == b * n;
      UnitDirection(a, b, c, s, n);
      AtanFromDirection(Angle(a, b), s, c);
    }
  }

  lemma AtanFromDirection(a: Angle, s: real, c: real)
    requires a.c * a.c + a.s * a.s == 1.0 && a.c * s == a.s * c && a.c * c + a.s * s > 0.0
    ensures IsAtan2(a, s, c)
  {
  }

  /** `n` is the length of the vectors given to `atan2` for `q`, the root of `1 - sinp^2`. */
  predicate IsRoot(n: real, q: Quat) {
    n >= 0.0 && n * n == 1.0 - Sinp(q) * Sinp(q)
  }

  /** A library made from the roots `np` and `nq` of two quaternions. */
  function LibraryFrom(np: real, nq: real): MathLib {
    MathLib(
      (s: real, c: real) => DirectionOf(if SquaresAdd(s, c, np) then np else nq, s, c),
      (s: real) => Angle(if np * np == 1.0 - s * s then np else nq, s))
  }

  lemma RootFits(n: real, q: Quat)
    requires Unit(q) && IsRoot(n, q)
    ensures SquaresAdd(SinrCosp(q), CosrCosp(q), n) && SquaresAdd(SinyCosp(q), CosyCosp(q), n)
  {
    ClampIsGimbal(q);
  }

  lemma AtanFits(np: real, nq: real, s: real, c: real)
    requires np >= 0.0 && nq >= 0.0 && (SquaresAdd(s, c, np) || SquaresAdd(s, c, nq))
    ensures IsAtan2(LibraryFrom(np, nq).atan2(s, c), s, c)
  {
    hide IsAtan2, SquaresAdd, DirectionOf;
    DirectionIsAtan2(if SquaresAdd(s, c, np) then np else nq, s, c);
  }

  lemma AsinFits(np: real, nq: real, s: real)
    requires np >= 0.0 && nq >= 0.0 && (np * np == 1.0 - s * s || nq * nq == 1.0 - s * s)
    ensures IsAsin(LibraryFrom(np, nq).asin(s), s)
  {
  }

  lemma SoundFor(np: real, nq: real, q: Quat)
    requires Unit(q) && np >= 0.0 && nq >= 0.0 && (IsRoot(np, q) || IsRoot(nq, q))
    ensures Sound(LibraryFrom(np, nq), q)
  {
    hide LibraryFrom, IsAtan2, IsAsin, SquaresAdd, SinrCosp, CosrCosp, SinyCosp, CosyCosp, Sinp, Unit;
    if IsRoot(np, q) { RootFits(np, q); } else { RootFits(nq, q); }
    AtanFits(np, nq, SinrCosp(q), CosrCosp(q));
    AtanFits(np, nq, SinyCosp(q), CosyCosp(q));
    AsinFits(np, nq, Sinp(q));
  }

  /** The assumptions on the library can be met, for two unit quaternions at once, given
      their roots. */
  lemma SoundLibrary(p: Quat, np: real, q: Quat, nq: real) returns (m: MathLib)
    requires Unit(p) && Unit(q) && IsRoot(np, p) && IsRoot(nq, q)
    ensures Sound(m, p) && Sound(m, q)
  {
    m := LibraryFrom(np, nq);
    SoundFor(np, nq, p);
    SoundFor(np, nq, q);
  }
}
