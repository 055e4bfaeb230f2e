/** 4x4 matrices over exact reals, as src/gl-matrix.js stores them: sixteen numbers, column after column. */
module Mat4s {

  datatype Vec4 = Vec4(x: real, y: real, z: real, w: real)

  type Mat4 = m: seq<real> | |m| == 16 witness seq(16, _ => 0.0)

  function Column(m: Mat4, c: nat): Vec4
    requires c < 4
  {
    Vec4(m[4 * c], m[4 * c + 1], m[4 * c + 2], m[4 * c + 3])
  }

  function Row(m: Mat4, r: nat): Vec4
    requires r < 4
  {
    Vec4(m[r], m[4 + r], m[8 + r], m[12 + r])
  }

  function OfColumns(a: Vec4, b: Vec4, c: Vec4, d: Vec4): Mat4 {
    [a.x, a.y, a.z, a.w, b.x, b.y, b.z, b.w, c.x, c.y, c.z, c.w, d.x, d.y, d.z, d.w]
  }

  function Inner(u: Vec4, v: Vec4): real { u.x * v.x + u.y * v.y + u.z * v.z + u.w * v.w }

  function Scale(u: Vec4, k: real): Vec4 { Vec4(u.x * k, u.y * k, u.z * k, u.w * k) }

  function Plus(u: Vec4, v: Vec4): Vec4 { Vec4(u.x + v.x, u.y + v.y, u.z + v.z, u.w + v.w) }

  /** A matrix applied to a vector, and matrix product column by column. */
  function Apply(m: Mat4, v: Vec4): Vec4 {
    Vec4(Inner(Row(m, 0), v), Inner(Row(m, 1), v), Inner(Row(m, 2), v), Inner(Row(m, 3), v))
  }

  function Times(a: Mat4, b: Mat4): Mat4 {
    OfColumns(Apply(a, Column(b, 0)), Apply(a, Column(b, 1)), Apply(a, Column(b, 2)), Apply(a, Column(b, 3)))
  }

  function Identity(): Mat4 {
    OfColumns(Vec4(1.0, 0.0, 0.0, 0.0), Vec4(0.0, 1.0, 0.0, 0.0), Vec4(0.0, 0.0, 1.0, 0.0), Vec4(0.0, 0.0, 0.0, 1.0))
  }

  function Transposed(m: Mat4): Mat4 { OfColumns(Row(m, 0), Row(m, 1), Row(m, 2), Row(m, 3)) }

  // ----- determinant

  /** The determinant of a 3x3 matrix given by its columns. */
  function Det3(a: real, b: real, c: real, d: real, e: real, f: real, g: real, h: real, i: real): real {
    a * (e * i - h * f) - b * (d * i - g * f) + c * (d * h - g * e)
  }

  /** The vector whose inner product with another is the determinant of the four. */
  function Cross(u: Vec4, v: Vec4, w: Vec4): Vec4 {
    Vec4(Det3(u.y, u.z, u.w, v.y, v.z, v.w, w.y, w.z, w.w),
         -Det3(u.x, u.z, u.w, v.x, v.z, v.w, w.x, w.z, w.w),
         Det3(u.x, u.y, u.w, v.x, v.y, v.w, w.x, w.y, w.w),
         -Det3(u.x, u.y, u.z, v.x, v.y, v.z, w.x, w.y, w.z))
  }

  /** Expansion along the first column. */
  function Det(t: Vec4, u: Vec4, v: Vec4, w: Vec4): real { Inner(Cross(u, v, w), t) }

  function Determinant(m: Mat4): real { Det(Column(m, 0), Column(m, 1), Column(m, 2), Column(m, 3)) }

  // ----- determinants by pairs of columns

  function Minor(a: real, b: real, c: real, d: real): real { a * d - b * c }

  /** The six 2x2 minors of two columns. */
  datatype Plane = Plane(xy: real, xz: real, xw: real, yz: real, yw: real, zw: real)

  function Wedge(u: Vec4, v: Vec4): Plane {
    Plane(Minor(u.x, u.y, v.x, v.y), Minor(u.x, u.z, v.x, v.z), Minor(u.x, u.w, v.x, v.w),
          Minor(u.y, u.z, v.y, v.z), Minor(u.y, u.w, v.y, v.w), Minor(u.z, u.w, v.z, v.w))
  }

  function Pairing(p: Plane, q: Plane): real {
    p.xy * q.zw - p.xz * q.yw + p.xw * q.yz + p.yz * q.xw - p.yw * q.xz + p.zw * q.xy
  }

  function Sum(k: Plane, a: real, b: real, c: real, d: real, e: real, f: real): real {
    k.xy * a + k.xz * b + k.xw * c + k.yz * d + k.yw * e + k.zw * f
  }

  function PlaneSum(k: Plane, a: Plane, b: Plane, c: Plane, d: Plane, e: Plane, f: Plane): Plane {
    Plane(Sum(k, a.xy, b.xy, c.xy, d.xy, e.xy, f.xy), Sum(k, a.xz, b.xz, c.xz, d.xz, e.xz, f.xz),
          Sum(k, a.xw, b.xw, c.xw, d.xw, e.xw, f.xw), Sum(k, a.yz, b.yz, c.yz, d.yz, e.yz, f.yz),
          Sum(k, a.yw, b.yw, c.yw, d.yw, e.yw, f.yw), Sum(k, a.zw, b.zw, c.zw, d.zw, e.zw, f.zw))
  }

  /** What a matrix makes of the plane of two vectors. */
  function Image(m: Mat4, k: Plane): Plane {
    var a, b, c, d := Column(m, 0), Column(m, 1), Column(m, 2), Column(m, 3);
    PlaneSum(k, Wedge(a, b), Wedge(a, c), Wedge(a, d), Wedge(b, c), Wedge(b, d), Wedge(c, d))
  }

  lemma InnerTimesInner(p: Vec4, u: Vec4, q: Vec4, v: Vec4)
    ensures Inner(p, u) * Inner(q, v)
         == (p.x * u.x + p.y * u.y + p.z * u.z + p.w * u.w) * (q.x * v.x + q.y * v.y + q.z * v.z + q.w * v.w)
  {
    var s := Inner(p, u);
    assert s * Inner(q, v) == s * (q.x * v.x + q.y * v.y + q.z * v.z + q.w * v.w);
  }

  lemma PairingOfWedges(t: Vec4, u: Vec4, v: Vec4, w: Vec4)
    ensures Pairing(Wedge(t, u), Wedge(v, w))
         == (t.x * u.y - t.y * u.x) * (v.z * w.w - v.w * w.z) - (t.x * u.z - t.z * u.x) * (v.y * w.w - v.w * w.y) +
            (t.x * u.w - t.w * u.x) * (v.y * w.z - v.z * w.y) + (t.y * u.z - t.z * u.y) * (v.x * w.w - v.w * w.x) -
            (t.y * u.w - t.w * u.y) * (v.x * w.z - v.z * w.x) + (t.z * u.w - t.w * u.z) * (v.x * w.y - v.y * w.x)
  {
  }

  lemma DetInFull(t: Vec4, u: Vec4, v: Vec4, w: Vec4)
    ensures Det(t, u, v, w)
         == (t.x * u.y - t.y * u.x) * (v.z * w.w - v.w * w.z) - (t.x * u.z - t.z * u.x) * (v.y * w.w - v.w * w.y) +
            (t.x * u.w - t.w * u.x) * (v.y * w.z - v.z * w.y) + (t.y * u.z - t.z * u.y) * (v.x * w.w - v.w * w.x) -
            (t.y * u.w - t.w * u.y) * (v.x * w.z - v.z * w.x) + (t.z * u.w - t.w * u.z) * (v.x * w.y - v.y * w.x)
  {
  }

  lemma CrossIsOrthogonal(u: Vec4, v: Vec4, w: Vec4)
    ensures Inner(Cross(u, v, w), u) == 0.0
    ensures Inner(Cross(u, v, w), v) == 0.0
    ensures Inner(Cross(u, v, w), w) == 0.0
  {
    DetInFull(u, u, v, w);
    DetInFull(v, u, v, w);
    DetInFull(w, u, v, w);
  }

  /** The determinant is the pairing of the first two columns with the last two. */
  lemma DetByPairs(t: Vec4, u: Vec4, v: Vec4, w: Vec4)
    ensures Det(t, u, v, w) == Pairing(Wedge(t, u), Wedge(v, w))
  {
    PairingOfWedges(t, u, v, w);
    DetInFull(t, u, v, w);
  }

  /** A minor of two products of rows with vectors, by the minors of the rows and of the vectors. */
  lemma MinorOfInners(p: Vec4, q: Vec4, u: Vec4, v: Vec4)
    ensures Minor(Inner(p, u), Inner(q, u), Inner(p, v), Inner(q, v))
         == Sum(Wedge(u, v), Minor(p.x, q.x, p.y, q.y), Minor(p.x, q.x, p.z, q.z), Minor(p.x, q.x, p.w, q.w),
                Minor(p.y, q.y, p.z, q.z), Minor(p.y, q.y, p.w, q.w), Minor(p.z, q.z, p.w, q.w))
  {
    InnerTimesInner(p, u, q, v);
    InnerTimesInner(q, u, p, v);
  }

  lemma WedgeOfImages(m: Mat4, u: Vec4, v: Vec4)
    ensures Wedge(Apply(m, u), Apply(m, v)) == Image(m, Wedge(u, v))
  {
    MinorOfInners(Row(m, 0), Row(m, 1), u, v);
    MinorOfInners(Row(m, 0), Row(m, 2), u, v);
    MinorOfInners(Row(m, 0), Row(m, 3), u, v);
    MinorOfInners(Row(m, 1), Row(m, 2), u, v);
    MinorOfInners(Row(m, 1), Row(m, 3), u, v);
    MinorOfInners(Row(m, 2), Row(m, 3), u, v);
  }

  lemma PairingOfSum(k: Plane, a: Plane, b: Plane, c: Plane, d: Plane, e: Plane, f: Plane, q: Plane)
    ensures Pairing(PlaneSum(k, a, b, c, d, e, f), q)
         == Sum(k, Pairing(a, q), Pairing(b, q), Pairing(c, q), Pairing(d, q), Pairing(e, q), Pairing(f, q))
  {
  }

  lemma PairingCommutes(p: Plane, q: Plane)
    ensures Pairing(p, q) == Pairing(q, p)
  {
  }

  /** Two columns in common leave nothing; otherwise the order of the columns gives the sign. */
  lemma SharedColumn(a: Vec4, b: Vec4, c: Vec4)
    ensures Pairing(Wedge(a, b), Wedge(a, b)) == 0.0
    ensures Pairing(Wedge(a, c), Wedge(a, c)) == 0.0
    ensures Pairing(Wedge(b, c), Wedge(b, c)) == 0.0
    ensures Pairing(Wedge(a, b), Wedge(a, c)) == 0.0
    ensures Pairing(Wedge(a, b), Wedge(b, c)) == 0.0
    ensures Pairing(Wedge(a, c), Wedge(b, c)) == 0.0
  {
    PairingOfWedges(a, b, a, b);
    PairingOfWedges(a, c, a, c);
    PairingOfWedges(b, c, b, c);
    PairingOfWedges(a, b, a, c);
    PairingOfWedges(a, b, b, c);
    PairingOfWedges(a, c, b, c);
  }

  lemma FourColumns(a: Vec4, b: Vec4, c: Vec4, d: Vec4)
    ensures Pairing(Wedge(a, c), Wedge(b, d)) == -Pairing(Wedge(a, b), Wedge(c, d))
    ensures Pairing(Wedge(a, d), Wedge(b, c)) == Pairing(Wedge(a, b), Wedge(c, d))
  {
    PairingOfWedges(a, b, c, d);
    PairingOfWedges(a, c, b, d);
    PairingOfWedges(a, d, b, c);
  }

  /** Pairing the planes of two columns with an image picks one coordinate. */
  lemma PairingWithImage(m: Mat4, l: Plane, p: Plane)
    ensures
      var a, b, c, d := Column(m, 0), Column(m, 1), Column(m, 2), Column(m, 3);
      Pairing(p, Image(m, l))
        == Sum(l, Pairing(p, Wedge(a, b)), Pairing(p, Wedge(a, c)), Pairing(p, Wedge(a, d)),
                  Pairing(p, Wedge(b, c)), Pairing(p, Wedge(b, d)), Pairing(p, Wedge(c, d)))
  {
    var a, b, c, d := Column(m, 0), Column(m, 1), Column(m, 2), Column(m, 3);
    PairingOfSum(l, Wedge(a, b), Wedge(a, c), Wedge(a, d), Wedge(b, c), Wedge(b, d), Wedge(c, d), p);
    PairingCommutes(p, Image(m, l));
    PairingCommutes(p, Wedge(a, b));
    PairingCommutes(p, Wedge(a, c));
    PairingCommutes(p, Wedge(a, d));
    PairingCommutes(p, Wedge(b, c));
    PairingCommutes(p, Wedge(b, d));
    PairingCommutes(p, Wedge(c, d));
  }

  lemma SumPicks(l: Plane, a: real, b: real, c: real, d: real, e: real, f: real, x: real)
    ensures b == c == d == e == f == 0.0 && a == x ==> Sum(l, a, b, c, d, e, f) == l.xy * x
    ensures a == c == d == e == f == 0.0 && b == -x ==> Sum(l, a, b, c, d, e, f) == -(l.xz * x)
    ensures a == b == d == e == f == 0.0 && c == x ==> Sum(l, a, b, c, d, e, f) == l.xw * x
    ensures a == b == c == e == f == 0.0 && d == x ==> Sum(l, a, b, c, d, e, f) == l.yz * x
    ensures a == b == c == d == f == 0.0 && e == -x ==> Sum(l, a, b, c, d, e, f) == -(l.yw * x)
    ensures a == b == c == d == e == 0.0 && f == x ==> Sum(l, a, b, c, d, e, f) == l.zw * x
  {
  }

  lemma ColumnPlanes(a: Vec4, b: Vec4, c: Vec4, d: Vec4)
    ensures
      var ab, ac, ad, bc, bd, cd := Wedge(a, b), Wedge(a, c), Wedge(a, d), Wedge(b, c), Wedge(b, d), Wedge(c, d);
      && Pairing(ac, ab) == Pairing(ab, ac) && Pairing(ad, ab) == Pairing(ab, ad) && Pairing(bc, ab) == Pairing(ab, bc)
      && Pairing(bd, ab) == Pairing(ab, bd) && Pairing(cd, ab) == Pairing(ab, cd) && Pairing(ad, ac) == Pairing(ac, ad)
      && Pairing(bc, ac) == Pairing(ac, bc) && Pairing(bd, ac) == Pairing(ac, bd) && Pairing(cd, ac) == Pairing(ac, cd)
      && Pairing(bc, ad) == Pairing(ad, bc) && Pairing(bd, ad) == Pairing(ad, bd) && Pairing(cd, ad) == Pairing(ad, cd)
      && Pairing(bd, bc) == Pairing(bc, bd) && Pairing(cd, bc) == Pairing(bc, cd) && Pairing(cd, bd) == Pairing(bd, cd)
  {
  }

  lemma Picked(a: Vec4, b: Vec4, c: Vec4, d: Vec4, l: Plane, p: Plane, det: real)
    requires det == Pairing(Wedge(a, b), Wedge(c, d))
    ensures
      var ab, ac, ad, bc, bd, cd := Wedge(a, b), Wedge(a, c), Wedge(a, d), Wedge(b, c), Wedge(b, d), Wedge(c, d);
      var sum := Sum(l, Pairing(p, ab), Pairing(p, ac), Pairing(p, ad), Pairing(p, bc), Pairing(p, bd), Pairing(p, cd));
      && (p == ab ==> sum == l.zw * det) && (p == ac ==> sum == -(l.yw * det)) && (p == ad ==> sum == l.yz * det)
      && (p == bc ==> sum == l.xw * det) && (p == bd ==> sum == -(l.xz * det)) && (p == cd ==> sum == l.xy * det)
  {
    var ab, ac, ad, bc, bd, cd := Wedge(a, b), Wedge(a, c), Wedge(a, d), Wedge(b, c), Wedge(b, d), Wedge(c, d);
    FourColumns(a, b, c, d);
    SharedColumn(a, b, c);
    SharedColumn(a, b, d);
    SharedColumn(a, c, d);
    SharedColumn(b, c, d);
    ColumnPlanes(a, b, c, d);
    SumPicks(l, Pairing(p, ab), Pairing(p, ac), Pairing(p, ad), Pairing(p, bc), Pairing(p, bd), Pairing(p, cd), det);
  }

  lemma PickedCoordinate(m: Mat4, l: Plane, p: Plane, det: real)
    requires det == Pairing(Wedge(Column(m, 0), Column(m, 1)), Wedge(Column(m, 2), Column(m, 3)))
    ensures
      var a, b, c, d := Column(m, 0), Column(m, 1), Column(m, 2), Column(m, 3);
      && (p == Wedge(a, b) ==> Pairing(p, Image(m, l)) == l.zw * det)
      && (p == Wedge(a, c) ==> Pairing(p, Image(m, l)) == -(l.yw * det))
      && (p == Wedge(a, d) ==> Pairing(p, Image(m, l)) == l.yz * det)
      && (p == Wedge(b, c) ==> Pairing(p, Image(m, l)) == l.xw * det)
      && (p == Wedge(b, d) ==> Pairing(p, Image(m, l)) == -(l.xz * det))
      && (p == Wedge(c, d) ==> Pairing(p, Image(m, l)) == l.xy * det)
  {
    PairingWithImage(m, l, p);
    Picked(Column(m, 0), Column(m, 1), Column(m, 2), Column(m, 3), l, p, det);
  }

  lemma SumIsPairing(k: Plane, l: Plane, a: real, b: real, c: real, d: real, e: real, f: real, det: real, rest: real)
    requires rest == Pairing(k, l) && a == l.zw * det && b == -(l.yw * det) && c == l.yz * det
    requires d == l.xw * det && e == -(l.xz * det) && f == l.xy * det
    ensures Sum(k, a, b, c, d, e, f) == det * rest
  {
  }

  /** A matrix multiplies every pairing by its determinant. */
  lemma PairingOfImages(m: Mat4, k: Plane, l: Plane, det: real, rest: real)
    requires rest == Pairing(k, l) && det == Pairing(Wedge(Column(m, 0), Column(m, 1)), Wedge(Column(m, 2), Column(m, 3)))
    ensures Pairing(Image(m, k), Image(m, l)) == det * rest
  {
    var a, b, c, d := Column(m, 0), Column(m, 1), Column(m, 2), Column(m, 3);
    var ab, ac, ad, bc, bd, cd := Wedge(a, b), Wedge(a, c), Wedge(a, d), Wedge(b, c), Wedge(b, d), Wedge(c, d);
    var q := Image(m, l);
    PairingOfSum(k, ab, ac, ad, bc, bd, cd, q);
    PickedCoordinate(m, l, ab, det);
    PickedCoordinate(m, l, ac, det);
    PickedCoordinate(m, l, ad, det);
    PickedCoordinate(m, l, bc, det);
    PickedCoordinate(m, l, bd, det);
    PickedCoordinate(m, l, cd, det);
    SumIsPairing(k, l, Pairing(ab, q), Pairing(ac, q), Pairing(ad, q), Pairing(bc, q), Pairing(bd, q), Pairing(cd, q), det, rest);
  }

  lemma DetOfImages(m: Mat4, t: Vec4, u: Vec4, v: Vec4, w: Vec4, det: real, rest: real)
    requires det == Determinant(m) && rest == Det(t, u, v, w)
    ensures Det(Apply(m, t), Apply(m, u), Apply(m, v), Apply(m, w)) == det * rest
  {
    DetByPairs(Column(m, 0), Column(m, 1), Column(m, 2), Column(m, 3));
    DetByPairs(Apply(m, t), Apply(m, u), Apply(m, v), Apply(m, w));
    DetByPairs(t, u, v, w);
    WedgeOfImages(m, t, u);
    WedgeOfImages(m, v, w);
    PairingOfImages(m, Wedge(t, u), Wedge(v, w), det, rest);
  }

  lemma DeterminantOfTimes(a: Mat4, b: Mat4)
    ensures Determinant(Times(a, b)) == Determinant(a) * Determinant(b)
  {
    DetOfImages(a, Column(b, 0), Column(b, 1), Column(b, 2), Column(b, 3), Determinant(a), Determinant(b));
  }

}
