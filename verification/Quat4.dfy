/** Quaternions and the rotations they stand for, over exact reals: the laws behind the quat4 operations
    of src/gl-matrix.js. A quaternion is a Vec4 with the real part in w. */
module Quat4s {
  import opened Mat4s
  import opened Mat4Laws

  /** One coordinate of the vector part of the Hamilton product, and its real part. */
  function VectorPart(ax: real, ay: real, az: real, aw: real, bx: real, by': real, bz: real, bw: real): real {
    ax * bw + aw * bx + ay * bz - az * by'
  }

  function RealPart(ax: real, ay: real, az: real, aw: real, bx: real, by': real, bz: real, bw: real): real {
    aw * bw - ax * bx - ay * by' - az * bz
  }

  /** The Hamilton product; its vector coordinates follow from one another by rotating x, y and z. */
  function Product(a: Vec4, b: Vec4): Vec4 {
    Vec4(VectorPart(a.x, a.y, a.z, a.w, b.x, b.y, b.z, b.w),
         VectorPart(a.y, a.z, a.x, a.w, b.y, b.z, b.x, b.w),
         VectorPart(a.z, a.x, a.y, a.w, b.z, b.x, b.y, b.w),
         RealPart(a.x, a.y, a.z, a.w, b.x, b.y, b.z, b.w))
  }

  function Conjugate(q: Vec4): Vec4 { Vec4(-q.x, -q.y, -q.z, q.w) }

  /** The square of the length. */
  function Norm(q: Vec4): real { Inner(q, q) }

  function One(): Vec4 { Vec4(0.0, 0.0, 0.0, 1.0) }

  /** A vector turned by a quaternion: q v q*. */
  function Turned(q: Vec4, v: Vec4): Vec4 { Product(Product(q, v), Conjugate(q)) }

  /** The rotation matrix of a unit quaternion, column by column. */
  function RotationX(x: real, y: real, z: real, w: real): Vec4 {
    Vec4(1.0 - 2.0 * (y * y + z * z), 2.0 * (x * y + w * z), 2.0 * (x * z - w * y), 0.0)
  }

  function RotationY(x: real, y: real, z: real, w: real): Vec4 {
    Vec4(2.0 * (x * y - w * z), 1.0 - 2.0 * (x * x + z * z), 2.0 * (y * z + w * x), 0.0)
  }

  function RotationZ(x: real, y: real, z: real, w: real): Vec4 {
    Vec4(2.0 * (x * z + w * y), 2.0 * (y * z - w * x), 1.0 - 2.0 * (x * x + y * y), 0.0)
  }

  function Rotation(q: Vec4): Mat4 {
    OfColumns(RotationX(q.x, q.y, q.z, q.w), RotationY(q.x, q.y, q.z, q.w), RotationZ(q.x, q.y, q.z, q.w), One())
  }

  // ----- multiplication from the left and from the right as matrices

  function Left(q: Vec4): Mat4 {
    OfColumns(Vec4(q.w, q.z, -q.y, -q.x), Vec4(-q.z, q.w, q.x, -q.y), Vec4(q.y, -q.x, q.w, -q.z), q)
  }

  function Right(q: Vec4): Mat4 {
    OfColumns(Vec4(q.w, -q.z, q.y, -q.x), Vec4(q.z, q.w, -q.x, -q.y), Vec4(-q.y, q.x, q.w, -q.z), q)
  }

  lemma ProductAsMatrix(a: Vec4, b: Vec4)
    ensures Apply(Left(a), b) == Product(a, b)
    ensures Apply(Right(b), a) == Product(a, b)
  {
  }

  lemma RightVectorPart(ax: real, ay: real, az: real, aw: real, bx: real, by': real, bz: real, bw: real,
                        cx: real, cy: real, cz: real, cw: real,
                        qx: real, qy: real, qz: real, qw: real)
    requires qx == VectorPart(bx, by', bz, bw, cx, cy, cz, cw) && qy == VectorPart(by', bz, bx, bw, cy, cz, cx, cw)
    requires qz == VectorPart(bz, bx, by', bw, cz, cx, cy, cw) && qw == RealPart(bx, by', bz, bw, cx, cy, cz, cw)
    ensures VectorPart(ax, ay, az, aw, qx, qy, qz, qw) ==
      ax * (bw * cw - bx * cx - by' * cy - bz * cz) + aw * (bx * cw + bw * cx + by' * cz - bz * cy) +
      ay * (bz * cw + bw * cz + bx * cy - by' * cx) - az * (by' * cw + bw * cy + bz * cx - bx * cz)
  {
  }

  lemma LeftVectorPart(ax: real, ay: real, az: real, aw: real, bx: real, by': real, bz: real, bw: real,
                       cx: real, cy: real, cz: real, cw: real,
                       px: real, py: real, pz: real, pw: real)
    requires px == VectorPart(ax, ay, az, aw, bx, by', bz, bw) && py == VectorPart(ay, az, ax, aw, by', bz, bx, bw)
    requires pz == VectorPart(az, ax, ay, aw, bz, bx, by', bw) && pw == RealPart(ax, ay, az, aw, bx, by', bz, bw)
    ensures VectorPart(px, py, pz, pw, cx, cy, cz, cw) ==
      (ax * bw + aw * bx + ay * bz - az * by') * cw + (aw * bw - ax * bx - ay * by' - az * bz) * cx +
      (ay * bw + aw * by' + az * bx - ax * bz) * cz - (az * bw + aw * bz + ax * by' - ay * bx) * cy
  {
  }

  lemma VectorPartAssociates(ax: real, ay: real, az: real, aw: real, bx: real, by': real, bz: real, bw: real,
                             cx: real, cy: real, cz: real, cw: real,
                             px: real, py: real, pz: real, pw: real,
                             qx: real, qy: real, qz: real, qw: real)
    requires px == VectorPart(ax, ay, az, aw, bx, by', bz, bw) && py == VectorPart(ay, az, ax, aw, by', bz, bx, bw)
    requires pz == VectorPart(az, ax, ay, aw, bz, bx, by', bw) && pw == RealPart(ax, ay, az, aw, bx, by', bz, bw)
    requires qx == VectorPart(bx, by', bz, bw, cx, cy, cz, cw) && qy == VectorPart(by', bz, bx, bw, cy, cz, cx, cw)
    requires qz == VectorPart(bz, bx, by', bw, cz, cx, cy, cw) && qw == RealPart(bx, by', bz, bw, cx, cy, cz, cw)
    ensures VectorPart(px, py, pz, pw, cx, cy, cz, cw) == VectorPart(ax, ay, az, aw, qx, qy, qz, qw)
  {
    LeftVectorPart(ax, ay, az, aw, bx, by', bz, bw, cx, cy, cz, cw, px, py, pz, pw);
    RightVectorPart(ax, ay, az, aw, bx, by', bz, bw, cx, cy, cz, cw, qx, qy, qz, qw);
  }

  lemma RightRealPart(ax: real, ay: real, az: real, aw: real, bx: real, by': real, bz: real, bw: real,
                      cx: real, cy: real, cz: real, cw: real,
                      qx: real, qy: real, qz: real, qw: real)
    requires qx == VectorPart(bx, by', bz, bw, cx, cy, cz, cw) && qy == VectorPart(by', bz, bx, bw, cy, cz, cx, cw)
    requires qz == VectorPart(bz, bx, by', bw, cz, cx, cy, cw) && qw == RealPart(bx, by', bz, bw, cx, cy, cz, cw)
    ensures RealPart(ax, ay, az, aw, qx, qy, qz, qw) ==
      aw * (bw * cw - bx * cx - by' * cy - bz * cz) - ax * (bx * cw + bw * cx + by' * cz - bz * cy) -
      ay * (by' * cw + bw * cy + bz * cx - bx * cz) - az * (bz * cw + bw * cz + bx * cy - by' * cx)
  {
  }

  lemma LeftRealPart(ax: real, ay: real, az: real, aw: real, bx: real, by': real, bz: real, bw: real,
                     cx: real, cy: real, cz: real, cw: real,
                     px: real, py: real, pz: real, pw: real)
    requires px == VectorPart(ax, ay, az, aw, bx, by', bz, bw) && py == VectorPart(ay, az, ax, aw, by', bz, bx, bw)
    requires pz == VectorPart(az, ax, ay, aw, bz, bx, by', bw) && pw == RealPart(ax, ay, az, aw, bx, by', bz, bw)
    ensures RealPart(px, py, pz, pw, cx, cy, cz, cw) ==
      (aw * bw - ax * bx - ay * by' - az * bz) * cw - (ax * bw + aw * bx + ay * bz - az * by') * cx -
      (ay * bw + aw * by' + az * bx - ax * bz) * cy - (az * bw + aw * bz + ax * by' - ay * bx) * cz
  {
  }

  lemma RealPartAssociates(ax: real, ay: real, az: real, aw: real, bx: real, by': real, bz: real, bw: real,
                           cx: real, cy: real, cz: real, cw: real,
                           px: real, py: real, pz: real, pw: real,
                           qx: real, qy: real, qz: real, qw: real)
    requires px == VectorPart(ax, ay, az, aw, bx, by', bz, bw) && py == VectorPart(ay, az, ax, aw, by', bz, bx, bw)
    requires pz == VectorPart(az, ax, ay, aw, bz, bx, by', bw) && pw == RealPart(ax, ay, az, aw, bx, by', bz, bw)
    requires qx == VectorPart(bx, by', bz, bw, cx, cy, cz, cw) && qy == VectorPart(by', bz, bx, bw, cy, cz, cx, cw)
    requires qz == VectorPart(bz, bx, by', bw, cz, cx, cy, cw) && qw == RealPart(bx, by', bz, bw, cx, cy, cz, cw)
    ensures RealPart(px, py, pz, pw, cx, cy, cz, cw) == RealPart(ax, ay, az, aw, qx, qy, qz, qw)
  {
    LeftRealPart(ax, ay, az, aw, bx, by', bz, bw, cx, cy, cz, cw, px, py, pz, pw);
    RightRealPart(ax, ay, az, aw, bx, by', bz, bw, cx, cy, cz, cw, qx, qy, qz, qw);
  }

  lemma ProductAssociates(a: Vec4, b: Vec4, c: Vec4)
    ensures Product(Product(a, b), c) == Product(a, Product(b, c))
  {
    var p, q := Product(a, b), Product(b, c);
    VectorPartAssociates(a.x, a.y, a.z, a.w, b.x, b.y, b.z, b.w, c.x, c.y, c.z, c.w, p.x, p.y, p.z, p.w, q.x, q.y, q.z, q.w);
    VectorPartAssociates(a.y, a.z, a.x, a.w, b.y, b.z, b.x, b.w, c.y, c.z, c.x, c.w, p.y, p.z, p.x, p.w, q.y, q.z, q.x, q.w);
    VectorPartAssociates(a.z, a.x, a.y, a.w, b.z, b.x, b.y, b.w, c.z, c.x, c.y, c.w, p.z, p.x, p.y, p.w, q.z, q.x, q.y, q.w);
    RealPartAssociates(a.x, a.y, a.z, a.w, b.x, b.y, b.z, b.w, c.x, c.y, c.z, c.w, p.x, p.y, p.z, p.w, q.x, q.y, q.z, q.w);
  }

  function Unit(k: nat): Vec4
    requires k < 4
  {
    if k == 0 then Vec4(1.0, 0.0, 0.0, 0.0)
    else if k == 1 then Vec4(0.0, 1.0, 0.0, 0.0)
    else if k == 2 then Vec4(0.0, 0.0, 1.0, 0.0)
    else One()
  }

  /** The columns are the products with the units. */
  lemma ColumnsAreProducts(q: Vec4, k: nat)
    requires k < 4
    ensures Column(Left(q), k) == Product(q, Unit(k))
    ensures Column(Right(q), k) == Product(Unit(k), q)
  {
  }

  lemma SameColumns(m: Mat4, n: Mat4)
    requires forall k :: 0 <= k < 4 ==> Column(m, k) == Column(n, k)
    ensures m == n
  {
    OfItsColumns(m);
    OfItsColumns(n);
  }

  lemma LeftOfProduct(a: Vec4, b: Vec4)
    ensures Left(Product(a, b)) == Times(Left(a), Left(b))
  {
    forall k | 0 <= k < 4 ensures Column(Left(Product(a, b)), k) == Column(Times(Left(a), Left(b)), k) {
      LeftColumn(a, b, k);
      ColumnOfTimes(Left(a), Left(b), k);
    }
    SameColumns(Left(Product(a, b)), Times(Left(a), Left(b)));
  }

  lemma ColumnOfTimes(m: Mat4, n: Mat4, k: nat)
    requires k < 4
    ensures Column(Times(m, n), k) == Apply(m, Column(n, k))
  {
  }

  lemma LeftColumn(a: Vec4, b: Vec4, k: nat)
    requires k < 4
    ensures Column(Left(Product(a, b)), k) == Apply(Left(a), Column(Left(b), k))
  {
    ColumnsAreProducts(b, k);
    ColumnsAreProducts(Product(a, b), k);
    ProductAsMatrix(a, Product(b, Unit(k)));
    ProductAssociates(a, b, Unit(k));
  }

  lemma RightColumn(a: Vec4, b: Vec4, k: nat)
    requires k < 4
    ensures Column(Right(Product(a, b)), k) == Apply(Right(b), Column(Right(a), k))
  {
    ColumnsAreProducts(a, k);
    ColumnsAreProducts(Product(a, b), k);
    ProductAsMatrix(Product(Unit(k), a), b);
    ProductAssociates(Unit(k), a, b);
  }

  lemma BothColumns(a: Vec4, b: Vec4, k: nat)
    requires k < 4
    ensures Apply(Left(a), Column(Right(b), k)) == Apply(Right(b), Column(Left(a), k))
  {
    ColumnsAreProducts(a, k);
    ColumnsAreProducts(b, k);
    ProductAsMatrix(a, Product(Unit(k), b));
    ProductAsMatrix(Product(a, Unit(k)), b);
    ProductAssociates(a, Unit(k), b);
  }

  lemma RightOfProduct(a: Vec4, b: Vec4)
    ensures Right(Product(a, b)) == Times(Right(b), Right(a))
  {
    forall k | 0 <= k < 4 ensures Column(Right(Product(a, b)), k) == Column(Times(Right(b), Right(a)), k) {
      RightColumn(a, b, k);
      ColumnOfTimes(Right(b), Right(a), k);
    }
    SameColumns(Right(Product(a, b)), Times(Right(b), Right(a)));
  }

  lemma LeftCommutesWithRight(a: Vec4, b: Vec4)
    ensures Times(Left(a), Right(b)) == Times(Right(b), Left(a))
  {
    forall k | 0 <= k < 4 ensures Column(Times(Left(a), Right(b)), k) == Column(Times(Right(b), Left(a)), k) {
      BothColumns(a, b, k);
      ColumnOfTimes(Left(a), Right(b), k);
      ColumnOfTimes(Right(b), Left(a), k);
    }
    SameColumns(Times(Left(a), Right(b)), Times(Right(b), Left(a)));
  }

  // ----- turning as a matrix

  /** What turning by q does to all four coordinates; the last one is multiplied by the norm. */
  function Turning(q: Vec4): Mat4 { Times(Left(q), Right(Conjugate(q))) }

  lemma TurnedByMatrix(q: Vec4, v: Vec4)
    ensures Apply(Turning(q), v) == Turned(q, v)
  {
    ApplyTimes(Left(q), Right(Conjugate(q)), v);
    ProductAsMatrix(v, Conjugate(q));
    ProductAsMatrix(q, Product(v, Conjugate(q)));
    ProductAssociates(q, v, Conjugate(q));
  }

  /** The inner two of four factors may be exchanged when they commute. */
  lemma SwapInner(la: Mat4, lb: Mat4, ra: Mat4, rb: Mat4)
    requires Times(lb, ra) == Times(ra, lb)
    ensures Times(Times(la, lb), Times(ra, rb)) == Times(Times(la, ra), Times(lb, rb))
  {
    TimesAssociates(la, lb, Times(ra, rb));
    TimesAssociates(lb, ra, rb);
    TimesAssociates(ra, lb, rb);
    TimesAssociates(la, ra, Times(lb, rb));
  }

  lemma RightOfConjugate(a: Vec4, b: Vec4)
    ensures Right(Conjugate(Product(a, b))) == Times(Right(Conjugate(a)), Right(Conjugate(b)))
  {
    ConjugateOfProduct(a, b);
    RightOfProduct(Conjugate(b), Conjugate(a));
  }

  lemma ConjugateOfProduct(a: Vec4, b: Vec4)
    ensures Conjugate(Product(a, b)) == Product(Conjugate(b), Conjugate(a))
  {
    ConjugatedVectorPart(a.x, a.y, a.z, a.w, b.x, b.y, b.z, b.w, -a.x, -a.y, -a.z, -b.x, -b.y, -b.z);
    ConjugatedVectorPart(a.y, a.z, a.x, a.w, b.y, b.z, b.x, b.w, -a.y, -a.z, -a.x, -b.y, -b.z, -b.x);
    ConjugatedVectorPart(a.z, a.x, a.y, a.w, b.z, b.x, b.y, b.w, -a.z, -a.x, -a.y, -b.z, -b.x, -b.y);
  }

  lemma ConjugatedVectorPart(ax: real, ay: real, az: real, aw: real, bx: real, by': real, bz: real, bw: real,
                             px: real, py: real, pz: real, qx: real, qy: real, qz: real)
    requires px == -ax && py == -ay && pz == -az && qx == -bx && qy == -by' && qz == -bz
    ensures VectorPart(qx, qy, qz, bw, px, py, pz, aw) == -VectorPart(ax, ay, az, aw, bx, by', bz, bw)
    ensures RealPart(qx, qy, qz, bw, px, py, pz, aw) == RealPart(ax, ay, az, aw, bx, by', bz, bw)
  {
  }

  /** Turning by a product is turning twice, whatever the norms. */
  lemma TurningOfProduct(a: Vec4, b: Vec4)
    ensures Turning(Product(a, b)) == Times(Turning(a), Turning(b))
  {
    LeftOfProduct(a, b);
    RightOfConjugate(a, b);
    LeftCommutesWithRight(b, Conjugate(a));
    SwapInner(Left(a), Left(b), Right(Conjugate(a)), Right(Conjugate(b)));
  }

  // ----- turning and the rotation matrix

  lemma TurningOfX(x: real, y: real, z: real, w: real, n: real)
    requires n == x * x + y * y + z * z + w * w - 1.0
    ensures Apply(Left(Vec4(x, y, z, w)), Vec4(w, z, -y, x))
         == Plus(RotationX(x, y, z, w), Vec4(n, 0.0, 0.0, 0.0))
  {
  }

  lemma TurningOfY(x: real, y: real, z: real, w: real, n: real)
    requires n == x * x + y * y + z * z + w * w - 1.0
    ensures Apply(Left(Vec4(x, y, z, w)), Vec4(-z, w, x, y))
         == Plus(RotationY(x, y, z, w), Vec4(0.0, n, 0.0, 0.0))
  {
  }

  lemma TurningOfZ(x: real, y: real, z: real, w: real, n: real)
    requires n == x * x + y * y + z * z + w * w - 1.0
    ensures Apply(Left(Vec4(x, y, z, w)), Vec4(y, -x, w, z))
         == Plus(RotationZ(x, y, z, w), Vec4(0.0, 0.0, n, 0.0))
  {
  }

  lemma TurningOfOne(x: real, y: real, z: real, w: real, n: real)
    requires n == x * x + y * y + z * z + w * w - 1.0
    ensures Apply(Left(Vec4(x, y, z, w)), Vec4(-x, -y, -z, w)) == Vec4(0.0, 0.0, 0.0, 1.0 + n)
  {
  }

  /** A matrix with n added along the diagonal. */
  function Shifted(m: Mat4, n: real): Mat4 {
    OfColumns(Plus(Column(m, 0), Vec4(n, 0.0, 0.0, 0.0)), Plus(Column(m, 1), Vec4(0.0, n, 0.0, 0.0)),
              Plus(Column(m, 2), Vec4(0.0, 0.0, n, 0.0)), Plus(Column(m, 3), Vec4(0.0, 0.0, 0.0, n)))
  }

  /** Turning is the rotation matrix with the diagonal made up to the norm. */
  lemma TurningCells(q: Vec4)
    ensures Turning(q) == Shifted(Rotation(q), Norm(q) - 1.0)
  {
    var n := Norm(q) - 1.0;
    var x, y, z, w := q.x, q.y, q.z, q.w;
    assert q == Vec4(x, y, z, w);
    TurningOfX(x, y, z, w, n);
    TurningOfY(x, y, z, w, n);
    TurningOfZ(x, y, z, w, n);
    TurningOfOne(x, y, z, w, n);
  }

  lemma RotationIsTurning(q: Vec4)
    requires Norm(q) == 1.0
    ensures Rotation(q) == Turning(q)
  {
    TurningCells(q);
    ShiftedByNothing(Rotation(q), Norm(q) - 1.0);
  }

  lemma ShiftedByNothing(m: Mat4, n: real)
    requires n == 0.0
    ensures Shifted(m, n) == m
  {
  }

  lemma ApplyShifted(m: Mat4, n: real, v: Vec4)
    ensures Apply(Shifted(m, n), v) == Plus(Apply(m, v), Scale(v, n))
  {
    var a, b, c, d := Row(m, 0), Row(m, 1), Row(m, 2), Row(m, 3);
    RowsShifted(m, n);
    assert Scale(v, n) == Vec4(v.x * n, v.y * n, v.z * n, v.w * n);
    InnerShifted(a, n, v, v.x * n);
    InnerShifted(b, n, v, v.y * n);
    InnerShifted(c, n, v, v.z * n);
    InnerShifted(d, n, v, v.w * n);
  }

  lemma RowsShifted(m: Mat4, n: real)
    ensures Row(Shifted(m, n), 0) == Plus(Row(m, 0), Vec4(n, 0.0, 0.0, 0.0))
    ensures Row(Shifted(m, n), 1) == Plus(Row(m, 1), Vec4(0.0, n, 0.0, 0.0))
    ensures Row(Shifted(m, n), 2) == Plus(Row(m, 2), Vec4(0.0, 0.0, n, 0.0))
    ensures Row(Shifted(m, n), 3) == Plus(Row(m, 3), Vec4(0.0, 0.0, 0.0, n))
  {
  }

  lemma InnerShifted(u: Vec4, n: real, v: Vec4, t: real)
    ensures t == v.x * n ==> Inner(Plus(u, Vec4(n, 0.0, 0.0, 0.0)), v) == Inner(u, v) + t
    ensures t == v.y * n ==> Inner(Plus(u, Vec4(0.0, n, 0.0, 0.0)), v) == Inner(u, v) + t
    ensures t == v.z * n ==> Inner(Plus(u, Vec4(0.0, 0.0, n, 0.0)), v) == Inner(u, v) + t
    ensures t == v.w * n ==> Inner(Plus(u, Vec4(0.0, 0.0, 0.0, n)), v) == Inner(u, v) + t
  {
  }

  lemma MovedOver(a: Vec4, b: Vec4, v: Vec4, n: real, k: real)
    requires a == Plus(b, Scale(v, n)) && k == -n
    ensures b == Plus(a, Scale(v, k))
  {
  }

  /** The length of a product is the product of the lengths. */
  lemma NormOfProduct(a: Vec4, b: Vec4)
    ensures Norm(Product(a, b)) == Norm(a) * Norm(b)
  {
    TurningOfProduct(a, b);
  }

  /** The matrix of a product of unit quaternions is the product of their matrices. */
  lemma RotationOfProduct(a: Vec4, b: Vec4)
    requires Norm(a) == Norm(b) == 1.0
    ensures Norm(Product(a, b)) == 1.0
    ensures Rotation(Product(a, b)) == Times(Rotation(a), Rotation(b))
  {
    NormOfProduct(a, b);
    TurningOfProduct(a, b);
    RotationIsTurning(a);
    RotationIsTurning(b);
    RotationIsTurning(Product(a, b));
  }

  /** Applying the matrix turns the vector, up to what the norm is off by. */
  lemma RotationAndTurning(q: Vec4, v: Vec4)
    ensures Apply(Rotation(q), v) == Plus(Turned(q, v), Scale(v, 1.0 - Norm(q)))
  {
    var n := Norm(q) - 1.0;
    TurnedByMatrix(q, v);
    TurningCells(q);
    ApplyShifted(Rotation(q), n, v);
    MovedOver(Turned(q, v), Apply(Rotation(q), v), v, n, 1.0 - Norm(q));
  }

  /** So the two ways to rotate a vector agree exactly for unit quaternions, or the zero vector. */
  lemma RotationTurnsExactlyWhen(q: Vec4, v: Vec4)
    ensures Apply(Rotation(q), v) == Turned(q, v) <==> Norm(q) == 1.0 || v == Vec4(0.0, 0.0, 0.0, 0.0)
  {
    RotationAndTurning(q, v);
  }

  /** A rotation matrix has its transpose for an inverse. */
  lemma RotationIsOrthogonal(q: Vec4)
    requires Norm(q) == 1.0
    ensures Transposed(Rotation(q)) == Rotation(Conjugate(q))
    ensures Times(Rotation(q), Transposed(Rotation(q))) == Identity()
    ensures Determinant(Rotation(q)) != 0.0 && Inverse(Rotation(q)) == Transposed(Rotation(q))
  {
    RotationOfConjugate(q);
    TimesItsConjugate(q);
    InverseIsUnique(Transposed(Rotation(q)), Rotation(q));
  }

  lemma TimesItsConjugate(q: Vec4)
    requires Norm(q) == 1.0
    ensures Times(Rotation(q), Rotation(Conjugate(q))) == Identity()
  {
    ProductWithConjugate(q);
    RotationOfProduct(q, Conjugate(q));
    RotationOfOne(Product(q, Conjugate(q)));
  }

  lemma ProductWithConjugate(q: Vec4)
    ensures Product(q, Conjugate(q)) == Vec4(0.0, 0.0, 0.0, Norm(q)) && Norm(Conjugate(q)) == Norm(q)
  {
  }

  lemma RotationOfOne(q: Vec4)
    requires q.x == q.y == q.z == 0.0
    ensures Rotation(q) == Identity()
  {
  }

  lemma RotationOfConjugate(q: Vec4)
    ensures Transposed(Rotation(q)) == Rotation(Conjugate(q))
  {
    var p := Conjugate(q);
    NegatedX(q.x, q.y, q.z, q.w, p.x, p.y, p.z);
    NegatedY(q.x, q.y, q.z, q.w, p.x, p.y, p.z);
    NegatedZ(q.x, q.y, q.z, q.w, p.x, p.y, p.z);
  }

  lemma NegatedX(x: real, y: real, z: real, w: real, a: real, b: real, c: real)
    requires a == -x && b == -y && c == -z
    ensures RotationX(a, b, c, w) == Vec4(RotationX(x, y, z, w).x, RotationY(x, y, z, w).x, RotationZ(x, y, z, w).x, 0.0)
  {
  }

  lemma NegatedY(x: real, y: real, z: real, w: real, a: real, b: real, c: real)
    requires a == -x && b == -y && c == -z
    ensures RotationY(a, b, c, w) == Vec4(RotationX(x, y, z, w).y, RotationY(x, y, z, w).y, RotationZ(x, y, z, w).y, 0.0)
  {
  }

  lemma NegatedZ(x: real, y: real, z: real, w: real, a: real, b: real, c: real)
    requires a == -x && b == -y && c == -z
    ensures RotationZ(a, b, c, w) == Vec4(RotationX(x, y, z, w).z, RotationY(x, y, z, w).z, RotationZ(x, y, z, w).z, 0.0)
  {
  }

  // ----- which way it turns

  /** The product of two vectors is their cross product, with their inner product taken off: so i j = k,
      j k = i, k i = j, and the squares are -1. */
  lemma VectorsMultiply(a: real, b: real, c: real, x: real, y: real, z: real)
    ensures Product(Vec4(a, b, c, 0.0), Vec4(x, y, z, 0.0))
         == Vec4(b * z - c * y, c * x - a * z, a * y - b * x, -(a * x + b * y + c * z))
  {
  }

  /** Half the angle is in the quaternion: with equal real and z part, it turns the x axis to the y axis and
      that one to the negative x axis. */
  lemma QuarterTurn(h: real, v: Vec4)
    requires 2.0 * h * h == 1.0
    ensures Apply(Rotation(Vec4(0.0, 0.0, h, h)), v) == Vec4(-v.y, v.x, v.z, v.w)
  {
    QuarterCells(h, h * h);
  }

  lemma QuarterCells(h: real, s: real)
    requires s == h * h && 2.0 * s == 1.0
    ensures RotationX(0.0, 0.0, h, h) == Vec4(0.0, 1.0, 0.0, 0.0)
    ensures RotationY(0.0, 0.0, h, h) == Vec4(-1.0, 0.0, 0.0, 0.0)
    ensures RotationZ(0.0, 0.0, h, h) == Vec4(0.0, 0.0, 1.0, 0.0)
  {
  }
}
