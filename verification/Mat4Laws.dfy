/** Laws of the product, the transpose and the inverse. */
module Mat4Laws {
  import opened Mat4s

  // ----- product

  lemma InnerByColumns(p: Vec4, a: Vec4, b: Vec4, c: Vec4, d: Vec4, v: Vec4)
    ensures Inner(Vec4(Inner(p, a), Inner(p, b), Inner(p, c), Inner(p, d)), v)
         == (p.x * a.x + p.y * a.y + p.z * a.z + p.w * a.w) * v.x + (p.x * b.x + p.y * b.y + p.z * b.z + p.w * b.w) * v.y +
            (p.x * c.x + p.y * c.y + p.z * c.z + p.w * c.w) * v.z + (p.x * d.x + p.y * d.y + p.z * d.z + p.w * d.w) * v.w
  {
  }

  lemma InnerByRows(p: Vec4, a: Vec4, b: Vec4, c: Vec4, d: Vec4, v: Vec4)
    ensures Inner(p, Vec4(Inner(Vec4(a.x, b.x, c.x, d.x), v), Inner(Vec4(a.y, b.y, c.y, d.y), v),
                          Inner(Vec4(a.z, b.z, c.z, d.z), v), Inner(Vec4(a.w, b.w, c.w, d.w), v)))
         == (p.x * a.x + p.y * a.y + p.z * a.z + p.w * a.w) * v.x + (p.x * b.x + p.y * b.y + p.z * b.z + p.w * b.w) * v.y +
            (p.x * c.x + p.y * c.y + p.z * c.z + p.w * c.w) * v.z + (p.x * d.x + p.y * d.y + p.z * d.z + p.w * d.w) * v.w
  {
  }

  lemma InnerOfInners(p: Vec4, a: Vec4, b: Vec4, c: Vec4, d: Vec4, v: Vec4)
    ensures
      Inner(Vec4(Inner(p, a), Inner(p, b), Inner(p, c), Inner(p, d)), v)
      == Inner(p, Vec4(Inner(Vec4(a.x, b.x, c.x, d.x), v), Inner(Vec4(a.y, b.y, c.y, d.y), v),
                       Inner(Vec4(a.z, b.z, c.z, d.z), v), Inner(Vec4(a.w, b.w, c.w, d.w), v)))
  {
    InnerByColumns(p, a, b, c, d, v);
    InnerByRows(p, a, b, c, d, v);
  }

  /** Applying a product is applying one factor after the other. */
  lemma ApplyTimes(a: Mat4, b: Mat4, v: Vec4)
    ensures Apply(Times(a, b), v) == Apply(a, Apply(b, v))
  {
    InnerOfInners(Row(a, 0), Column(b, 0), Column(b, 1), Column(b, 2), Column(b, 3), v);
    InnerOfInners(Row(a, 1), Column(b, 0), Column(b, 1), Column(b, 2), Column(b, 3), v);
    InnerOfInners(Row(a, 2), Column(b, 0), Column(b, 1), Column(b, 2), Column(b, 3), v);
    InnerOfInners(Row(a, 3), Column(b, 0), Column(b, 1), Column(b, 2), Column(b, 3), v);
  }

  lemma TimesAssociates(a: Mat4, b: Mat4, c: Mat4)
    ensures Times(Times(a, b), c) == Times(a, Times(b, c))
  {
    ApplyTimes(a, b, Column(c, 0));
    ApplyTimes(a, b, Column(c, 1));
    ApplyTimes(a, b, Column(c, 2));
    ApplyTimes(a, b, Column(c, 3));
  }

  lemma InnerWithUnit(u: Vec4, e: Vec4)
    ensures e == Vec4(1.0, 0.0, 0.0, 0.0) ==> Inner(u, e) == Inner(e, u) == u.x
    ensures e == Vec4(0.0, 1.0, 0.0, 0.0) ==> Inner(u, e) == Inner(e, u) == u.y
    ensures e == Vec4(0.0, 0.0, 1.0, 0.0) ==> Inner(u, e) == Inner(e, u) == u.z
    ensures e == Vec4(0.0, 0.0, 0.0, 1.0) ==> Inner(u, e) == Inner(e, u) == u.w
  {
  }

  lemma ApplyIdentity(v: Vec4)
    ensures Apply(Identity(), v) == v
  {
    InnerWithUnit(v, Vec4(1.0, 0.0, 0.0, 0.0));
    InnerWithUnit(v, Vec4(0.0, 1.0, 0.0, 0.0));
    InnerWithUnit(v, Vec4(0.0, 0.0, 1.0, 0.0));
    InnerWithUnit(v, Vec4(0.0, 0.0, 0.0, 1.0));
  }

  lemma ApplyToUnit(m: Mat4, e: Vec4)
    ensures e == Vec4(1.0, 0.0, 0.0, 0.0) ==> Apply(m, e) == Column(m, 0)
    ensures e == Vec4(0.0, 1.0, 0.0, 0.0) ==> Apply(m, e) == Column(m, 1)
    ensures e == Vec4(0.0, 0.0, 1.0, 0.0) ==> Apply(m, e) == Column(m, 2)
    ensures e == Vec4(0.0, 0.0, 0.0, 1.0) ==> Apply(m, e) == Column(m, 3)
  {
    InnerWithUnit(Row(m, 0), e);
    InnerWithUnit(Row(m, 1), e);
    InnerWithUnit(Row(m, 2), e);
    InnerWithUnit(Row(m, 3), e);
  }

  lemma OfItsColumns(m: Mat4)
    ensures OfColumns(Column(m, 0), Column(m, 1), Column(m, 2), Column(m, 3)) == m
  {
  }

  lemma IdentityIsNeutral(m: Mat4)
    ensures Times(Identity(), m) == m && Times(m, Identity()) == m
  {
    OfItsColumns(m);
    ApplyIdentity(Column(m, 0));
    ApplyIdentity(Column(m, 1));
    ApplyIdentity(Column(m, 2));
    ApplyIdentity(Column(m, 3));
    ApplyToUnit(m, Column(Identity(), 0));
    ApplyToUnit(m, Column(Identity(), 1));
    ApplyToUnit(m, Column(Identity(), 2));
    ApplyToUnit(m, Column(Identity(), 3));
  }

  // ----- transpose

  lemma InnerCommutes(u: Vec4, v: Vec4)
    ensures Inner(u, v) == Inner(v, u)
  {
  }

  lemma TransposeReversesTimes(a: Mat4, b: Mat4)
    ensures Transposed(Times(a, b)) == Times(Transposed(b), Transposed(a))
  {
    forall r, c | 0 <= r < 4 && 0 <= c < 4 ensures Inner(Row(a, r), Column(b, c)) == Inner(Column(b, c), Row(a, r)) {
      InnerCommutes(Row(a, r), Column(b, c));
    }
  }

  lemma DeterminantOfTransposed(m: Mat4)
    ensures Determinant(Transposed(m)) == Determinant(m)
  {
    DetInFull(Column(m, 0), Column(m, 1), Column(m, 2), Column(m, 3));
    DetInFull(Row(m, 0), Row(m, 1), Row(m, 2), Row(m, 3));
  }

  // ----- inverse

  /** Row k of the inverse times the determinant: what the other three columns leave open. */
  function Cofactors(m: Mat4, k: nat): Vec4
    requires k < 4
  {
    var a, b, c, d := Column(m, 0), Column(m, 1), Column(m, 2), Column(m, 3);
    if k == 0 then Cross(b, c, d)
    else if k == 1 then Scale(Cross(a, c, d), -1.0)
    else if k == 2 then Cross(a, b, d)
    else Scale(Cross(a, b, c), -1.0)
  }

  function Inverse(m: Mat4): Mat4
    requires Determinant(m) != 0.0
  {
    var k := 1.0 / Determinant(m);
    Transposed(OfColumns(Scale(Cofactors(m, 0), k), Scale(Cofactors(m, 1), k), Scale(Cofactors(m, 2), k), Scale(Cofactors(m, 3), k)))
  }

  lemma ScaledInner(u: Vec4, k: real, v: Vec4, x: real)
    requires Inner(u, v) == x
    ensures Inner(Scale(u, k), v) == k * x
  {
    assert Inner(Scale(u, k), v) == k * (u.x * v.x + u.y * v.y + u.z * v.z + u.w * v.w);
  }

  lemma CofactorsAgainstColumns(m: Mat4, k: nat, c: nat)
    requires k < 4 && c < 4
    ensures Inner(Cofactors(m, k), Column(m, c)) == if k == c then Determinant(m) else 0.0
  {
    var p, q, r, s := Column(m, 0), Column(m, 1), Column(m, 2), Column(m, 3);
    DetOfMovedColumn(p, q, r, s);
    match k
    case 0 => CrossIsOrthogonal(q, r, s);
    case 1 =>
      CrossIsOrthogonal(p, r, s);
      ScaledInner(Cross(p, r, s), -1.0, Column(m, c), if c == 1 then -Determinant(m) else 0.0);
    case 2 => CrossIsOrthogonal(p, q, s);
    case 3 =>
      CrossIsOrthogonal(p, q, r);
      ScaledInner(Cross(p, q, r), -1.0, Column(m, c), if c == 3 then -Determinant(m) else 0.0);
  }

  /** Moving a column to the front past one column changes the sign. */
  lemma DetOfMovedColumn(p: Vec4, q: Vec4, r: Vec4, s: Vec4)
    ensures Det(q, p, r, s) == -Det(p, q, r, s)
    ensures Det(r, p, q, s) == Det(p, q, r, s)
    ensures Det(s, p, q, r) == -Det(p, q, r, s)
  {
    DetInFull(p, q, r, s);
    DetInFull(q, p, r, s);
    DetInFull(r, p, q, s);
    DetInFull(s, p, q, r);
  }

  lemma InverseTimes(m: Mat4)
    requires Determinant(m) != 0.0
    ensures Times(Inverse(m), m) == Identity()
  {
    var k := 1.0 / Determinant(m);
    var n := Inverse(m);
    forall r, c | 0 <= r < 4 && 0 <= c < 4 ensures Inner(Row(n, r), Column(m, c)) == if r == c then 1.0 else 0.0 {
      assert Row(n, r) == Scale(Cofactors(m, r), k);
      CofactorsAgainstColumns(m, r, c);
      ScaledInner(Cofactors(m, r), k, Column(m, c), if r == c then Determinant(m) else 0.0);
    }
  }

  lemma DeterminantOfIdentity()
    ensures Determinant(Identity()) == 1.0
  {
    var m := Identity();
    UnitColumns(Column(m, 0), Column(m, 1), Column(m, 2), Column(m, 3));
  }

  lemma UnitColumns(t: Vec4, u: Vec4, v: Vec4, w: Vec4)
    requires t.x == u.y == v.z == w.w == 1.0
    requires t.y == t.z == t.w == u.x == u.z == u.w == v.x == v.y == v.w == w.x == w.y == w.z == 0.0
    ensures Det(t, u, v, w) == 1.0
  {
    InnerWithUnit(Cross(u, v, w), t);
  }

  lemma InverseDeterminants(n: Mat4, m: Mat4)
    requires Times(n, m) == Identity()
    ensures Determinant(n) * Determinant(m) == 1.0 && Determinant(n) != 0.0 && Determinant(m) != 0.0
  {
    DeterminantOfTimes(n, m);
    DeterminantOfIdentity();
    ProductIsOne(Determinant(n), Determinant(m));
  }

  lemma ProductIsOne(x: real, y: real)
    requires x * y == 1.0
    ensures x != 0.0 && y != 0.0
  {
  }

  /** A left inverse is a right inverse, is the inverse, and needs a nonzero determinant. */
  lemma LeftInverseIsInverse(n: Mat4, m: Mat4)
    requires Times(n, m) == Identity()
    ensures Determinant(n) * Determinant(m) == 1.0 && Determinant(m) != 0.0
    ensures Times(m, n) == Identity()
  {
    InverseDeterminants(n, m);
    var o := Inverse(n);
    InverseTimes(n);
    TimesAssociates(o, n, m);
    IdentityIsNeutral(o);
    IdentityIsNeutral(m);
  }

  /** The matrices with an inverse are those with a nonzero determinant, and it is the only one. */
  lemma InvertibleExactlyWhen(m: Mat4)
    ensures (exists n: Mat4 :: Times(n, m) == Identity()) <==> Determinant(m) != 0.0
    ensures (exists n: Mat4 :: Times(m, n) == Identity()) <==> Determinant(m) != 0.0
  {
    if Determinant(m) != 0.0 {
      InverseTimes(m);
      LeftInverseIsInverse(Inverse(m), m);
    }
    forall n: Mat4 | Times(n, m) == Identity() ensures Determinant(m) != 0.0 { LeftInverseIsInverse(n, m); }
    forall n: Mat4 | Times(m, n) == Identity() ensures Determinant(m) != 0.0 { LeftInverseIsInverse(m, n); }
  }

  lemma InverseIsUnique(n: Mat4, m: Mat4)
    requires Times(n, m) == Identity() || Times(m, n) == Identity()
    ensures Determinant(m) != 0.0 && n == Inverse(m)
  {
    if Times(n, m) == Identity() { LeftInverseIsInverse(n, m); } else { LeftInverseIsInverse(m, n); }
    InverseTimes(m);
    TimesAssociates(Inverse(m), m, n);
    IdentityIsNeutral(n);
    IdentityIsNeutral(Inverse(m));
  }
}
