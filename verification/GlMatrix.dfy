/** The matrix operations of src/gl-matrix.js on arrays that may be one and the same. */
module GlMatrix {
  import opened Mat4s
  import opened Mat4Laws

  /** Where an operation writes: `dest` when it is given, its operand otherwise. */
  function Target(dest: array?<real>, operand: array<real>): array<real> {
    if dest == null then operand else dest
  }

  function OfVec4(v: Vec4): seq<real> { [v.x, v.y, v.z, v.w] }

  function ToVec4(s: seq<real>): Vec4
    requires |s| == 4
  {
    Vec4(s[0], s[1], s[2], s[3])
  }

  /** Sixteen stores, the values all read before the first of them. */
  method SetCells(dest: array<real>, x0: real, x1: real, x2: real, x3: real, x4: real, x5: real, x6: real, x7: real,
                  x8: real, x9: real, x10: real, x11: real, x12: real, x13: real, x14: real, x15: real)
    requires dest.Length == 16
    modifies dest
    ensures dest[..] == [x0, x1, x2, x3, x4, x5, x6, x7, x8, x9, x10, x11, x12, x13, x14, x15]
  {
    dest[0] := x0; dest[1] := x1; dest[2] := x2; dest[3] := x3;
    dest[4] := x4; dest[5] := x5; dest[6] := x6; dest[7] := x7;
    dest[8] := x8; dest[9] := x9; dest[10] := x10; dest[11] := x11;
    dest[12] := x12; dest[13] := x13; dest[14] := x14; dest[15] := x15;
  }

  method Transpose(mat: array<real>, dest: array?<real>) returns (r: array<real>)
    requires mat.Length == Target(dest, mat).Length == 16
    modifies Target(dest, mat)
    ensures r == Target(dest, mat) && r[..] == Transposed(old(mat[..]))
  {
    if dest == null || mat == dest {
      var a01, a02, a03 := mat[1], mat[2], mat[3];
      var a12, a13 := mat[6], mat[7];
      var a23 := mat[11];
      mat[1] := mat[4];
      mat[2] := mat[8];
      mat[3] := mat[12];
      mat[4] := a01;
      mat[6] := mat[9];
      mat[7] := mat[13];
      mat[8] := a02;
      mat[9] := a12;
      mat[11] := mat[14];
      mat[12] := a03;
      mat[13] := a13;
      mat[14] := a23;
      return mat;
    }
    SetCells(dest,
      mat[0], mat[4], mat[8], mat[12],
      mat[1], mat[5], mat[9], mat[13],
      mat[2], mat[6], mat[10], mat[14],
      mat[3], mat[7], mat[11], mat[15]);
    return dest;
  }

  lemma InnerIs(a: real, b: real, c: real, d: real, e: real, f: real, g: real, h: real)
    ensures Inner(Vec4(a, b, c, d), Vec4(e, f, g, h)) == e * a + f * b + g * c + h * d
  {
  }

  method Multiply(mat: array<real>, mat2: array<real>, dest: array?<real>) returns (r: array<real>)
    requires mat.Length == mat2.Length == Target(dest, mat).Length == 16
    modifies Target(dest, mat)
    ensures r == Target(dest, mat) && r[..] == Times(old(mat[..]), old(mat2[..]))
  {
    r := Target(dest, mat);
    ghost var m, n := mat[..], mat2[..];
    var a00, a01, a02, a03 := mat[0], mat[1], mat[2], mat[3];
    var a10, a11, a12, a13 := mat[4], mat[5], mat[6], mat[7];
    var a20, a21, a22, a23 := mat[8], mat[9], mat[10], mat[11];
    var a30, a31, a32, a33 := mat[12], mat[13], mat[14], mat[15];
    var b00, b01, b02, b03 := mat2[0], mat2[1], mat2[2], mat2[3];
    var b10, b11, b12, b13 := mat2[4], mat2[5], mat2[6], mat2[7];
    var b20, b21, b22, b23 := mat2[8], mat2[9], mat2[10], mat2[11];
    var b30, b31, b32, b33 := mat2[12], mat2[13], mat2[14], mat2[15];
    InnerIs(a00, a10, a20, a30, b00, b01, b02, b03);
    InnerIs(a01, a11, a21, a31, b00, b01, b02, b03);
    InnerIs(a02, a12, a22, a32, b00, b01, b02, b03);
    InnerIs(a03, a13, a23, a33, b00, b01, b02, b03);
    InnerIs(a00, a10, a20, a30, b10, b11, b12, b13);
    InnerIs(a01, a11, a21, a31, b10, b11, b12, b13);
    InnerIs(a02, a12, a22, a32, b10, b11, b12, b13);
    InnerIs(a03, a13, a23, a33, b10, b11, b12, b13);
    InnerIs(a00, a10, a20, a30, b20, b21, b22, b23);
    InnerIs(a01, a11, a21, a31, b20, b21, b22, b23);
    InnerIs(a02, a12, a22, a32, b20, b21, b22, b23);
    InnerIs(a03, a13, a23, a33, b20, b21, b22, b23);
    InnerIs(a00, a10, a20, a30, b30, b31, b32, b33);
    InnerIs(a01, a11, a21, a31, b30, b31, b32, b33);
    InnerIs(a02, a12, a22, a32, b30, b31, b32, b33);
    InnerIs(a03, a13, a23, a33, b30, b31, b32, b33);
    SetCells(r,
      b00 * a00 + b01 * a10 + b02 * a20 + b03 * a30,
      b00 * a01 + b01 * a11 + b02 * a21 + b03 * a31,
      b00 * a02 + b01 * a12 + b02 * a22 + b03 * a32,
      b00 * a03 + b01 * a13 + b02 * a23 + b03 * a33,
      b10 * a00 + b11 * a10 + b12 * a20 + b13 * a30,
      b10 * a01 + b11 * a11 + b12 * a21 + b13 * a31,
      b10 * a02 + b11 * a12 + b12 * a22 + b13 * a32,
      b10 * a03 + b11 * a13 + b12 * a23 + b13 * a33,
      b20 * a00 + b21 * a10 + b22 * a20 + b23 * a30,
      b20 * a01 + b21 * a11 + b22 * a21 + b23 * a31,
      b20 * a02 + b21 * a12 + b22 * a22 + b23 * a32,
      b20 * a03 + b21 * a13 + b22 * a23 + b23 * a33,
      b30 * a00 + b31 * a10 + b32 * a20 + b33 * a30,
      b30 * a01 + b31 * a11 + b32 * a21 + b33 * a31,
      b30 * a02 + b31 * a12 + b32 * a22 + b33 * a32,
      b30 * a03 + b31 * a13 + b32 * a23 + b33 * a33);
    assert Row(m, 0) == Vec4(a00, a10, a20, a30) && Row(m, 1) == Vec4(a01, a11, a21, a31);
    assert Row(m, 2) == Vec4(a02, a12, a22, a32) && Row(m, 3) == Vec4(a03, a13, a23, a33);
    assert Column(n, 0) == Vec4(b00, b01, b02, b03) && Column(n, 1) == Vec4(b10, b11, b12, b13);
    assert Column(n, 2) == Vec4(b20, b21, b22, b23) && Column(n, 3) == Vec4(b30, b31, b32, b33);
  }

  method MultiplyVec4(mat: array<real>, vec: array<real>, dest: array?<real>) returns (r: array<real>)
    requires mat.Length == 16 && vec.Length == Target(dest, vec).Length == 4
    modifies Target(dest, vec)
    ensures r == Target(dest, vec) && r[..] == OfVec4(Apply(mat[..], ToVec4(old(vec[..]))))
  {
    r := Target(dest, vec);
    var x, y, z, w := vec[0], vec[1], vec[2], vec[3];
    var a0, a1, a2, a3 := mat[0], mat[4], mat[8], mat[12];
    var b0, b1, b2, b3 := mat[1], mat[5], mat[9], mat[13];
    var c0, c1, c2, c3 := mat[2], mat[6], mat[10], mat[14];
    var d0, d1, d2, d3 := mat[3], mat[7], mat[11], mat[15];
    InnerIs(x, y, z, w, a0, a1, a2, a3);
    InnerIs(x, y, z, w, b0, b1, b2, b3);
    InnerIs(x, y, z, w, c0, c1, c2, c3);
    InnerIs(x, y, z, w, d0, d1, d2, d3);
    ApplyByRows(mat[..], Vec4(a0, a1, a2, a3), Vec4(b0, b1, b2, b3), Vec4(c0, c1, c2, c3), Vec4(d0, d1, d2, d3), Vec4(x, y, z, w));
    SetVector(r,
      a0 * x + a1 * y + a2 * z + a3 * w,
      b0 * x + b1 * y + b2 * z + b3 * w,
      c0 * x + c1 * y + c2 * z + c3 * w,
      d0 * x + d1 * y + d2 * z + d3 * w);
  }

  /** Four stores. */
  method SetVector(dest: array<real>, x: real, y: real, z: real, w: real)
    requires dest.Length == 4
    modifies dest
    ensures dest[..] == [x, y, z, w]
  {
    dest[0] := x; dest[1] := y; dest[2] := z; dest[3] := w;
  }

  lemma ApplyByRows(m: Mat4, a: Vec4, b: Vec4, c: Vec4, d: Vec4, v: Vec4)
    requires Row(m, 0) == a && Row(m, 1) == b && Row(m, 2) == c && Row(m, 3) == d
    ensures Apply(m, v) == Vec4(Inner(v, a), Inner(v, b), Inner(v, c), Inner(v, d))
  {
    InnerCommutes(a, v);
    InnerCommutes(b, v);
    InnerCommutes(c, v);
    InnerCommutes(d, v);
  }

  // ----- determinant and inverse

  /** The twenty-four products the source adds up. */
  function DeterminantOf(mat: array<real>): (d: real)
    requires mat.Length == 16
    reads mat
    ensures d == Determinant(mat[..])
  {
    var a00, a01, a02, a03 := mat[0], mat[1], mat[2], mat[3];
    var a10, a11, a12, a13 := mat[4], mat[5], mat[6], mat[7];
    var a20, a21, a22, a23 := mat[8], mat[9], mat[10], mat[11];
    var a30, a31, a32, a33 := mat[12], mat[13], mat[14], mat[15];
    a30 * a21 * a12 * a03 - a20 * a31 * a12 * a03 - a30 * a11 * a22 * a03 + a10 * a31 * a22 * a03 +
    a20 * a11 * a32 * a03 - a10 * a21 * a32 * a03 - a30 * a21 * a02 * a13 + a20 * a31 * a02 * a13 +
    a30 * a01 * a22 * a13 - a00 * a31 * a22 * a13 - a20 * a01 * a32 * a13 + a00 * a21 * a32 * a13 +
    a30 * a11 * a02 * a23 - a10 * a31 * a02 * a23 - a30 * a01 * a12 * a23 + a00 * a31 * a12 * a23 +
    a10 * a01 * a32 * a23 - a00 * a11 * a32 * a23 - a20 * a11 * a02 * a33 + a10 * a21 * a02 * a33 +
    a20 * a01 * a12 * a33 - a00 * a21 * a12 * a33 - a10 * a01 * a22 * a33 + a00 * a11 * a22 * a33
  }

  lemma InverseByRows(m: Mat4, k: real, p: Vec4, q: Vec4, r: Vec4, s: Vec4)
    requires Determinant(m) != 0.0 && k == 1.0 / Determinant(m)
    requires p == Scale(Cofactors(m, 0), k) && q == Scale(Cofactors(m, 1), k)
    requires r == Scale(Cofactors(m, 2), k) && s == Scale(Cofactors(m, 3), k)
    ensures Inverse(m) == [p.x, q.x, r.x, s.x, p.y, q.y, r.y, s.y, p.z, q.z, r.z, s.z, p.w, q.w, r.w, s.w]
  {
  }

  /** The inverse, or null and nothing written when the determinant is zero. */
  method Invert(mat: array<real>, dest: array?<real>) returns (r: array?<real>)
    requires mat.Length == Target(dest, mat).Length == 16
    modifies Target(dest, mat)
    ensures r == null <==> Determinant(old(mat[..])) == 0.0
    ensures r == null ==> Target(dest, mat)[..] == old(Target(dest, mat)[..])
    ensures r != null ==> r == Target(dest, mat) && r[..] == Inverse(old(mat[..]))
  {
    ghost var m := mat[..];
    var a00, a01, a02, a03 := mat[0], mat[1], mat[2], mat[3];
    var a10, a11, a12, a13 := mat[4], mat[5], mat[6], mat[7];
    var a20, a21, a22, a23 := mat[8], mat[9], mat[10], mat[11];
    var a30, a31, a32, a33 := mat[12], mat[13], mat[14], mat[15];
    var b00 := a00 * a11 - a01 * a10;
    var b01 := a00 * a12 - a02 * a10;
    var b02 := a00 * a13 - a03 * a10;
    var b03 := a01 * a12 - a02 * a11;
    var b04 := a01 * a13 - a03 * a11;
    var b05 := a02 * a13 - a03 * a12;
    var b06 := a20 * a31 - a21 * a30;
    var b07 := a20 * a32 - a22 * a30;
    var b08 := a20 * a33 - a23 * a30;
    var b09 := a21 * a32 - a22 * a31;
    var b10 := a21 * a33 - a23 * a31;
    var b11 := a22 * a33 - a23 * a32;
    var d := b00 * b11 - b01 * b10 + b02 * b09 + b03 * b08 - b04 * b07 + b05 * b06;
    assert Column(m, 0) == Vec4(a00, a01, a02, a03) && Column(m, 1) == Vec4(a10, a11, a12, a13);
    assert Column(m, 2) == Vec4(a20, a21, a22, a23) && Column(m, 3) == Vec4(a30, a31, a32, a33);
    MinorsOfCells(a00, a01, a02, a03, a10, a11, a12, a13, b00, b01, b02, b03, b04, b05);
    MinorsOfCells(a20, a21, a22, a23, a30, a31, a32, a33, b06, b07, b08, b09, b10, b11);
    DeterminantOfMinors(m, b00, b01, b02, b03, b04, b05, b06, b07, b08, b09, b10, b11);
    if d == 0.0 { return null; }
    var invDet := 1.0 / d;
    InverseOfCells(m, a00, a01, a02, a03, a10, a11, a12, a13, a20, a21, a22, a23, a30, a31, a32, a33,
                   b00, b01, b02, b03, b04, b05, b06, b07, b08, b09, b10, b11, invDet);
    r := Target(dest, mat);
    SetCells(r,
      (a11 * b11 - a12 * b10 + a13 * b09) * invDet, (-a01 * b11 + a02 * b10 - a03 * b09) * invDet,
      (a31 * b05 - a32 * b04 + a33 * b03) * invDet, (-a21 * b05 + a22 * b04 - a23 * b03) * invDet,
      (-a10 * b11 + a12 * b08 - a13 * b07) * invDet, (a00 * b11 - a02 * b08 + a03 * b07) * invDet,
      (-a30 * b05 + a32 * b02 - a33 * b01) * invDet, (a20 * b05 - a22 * b02 + a23 * b01) * invDet,
      (a10 * b10 - a11 * b08 + a13 * b06) * invDet, (-a00 * b10 + a01 * b08 - a03 * b06) * invDet,
      (a30 * b04 - a31 * b02 + a33 * b00) * invDet, (-a20 * b04 + a21 * b02 - a23 * b00) * invDet,
      (-a10 * b09 + a11 * b07 - a12 * b06) * invDet, (a00 * b09 - a01 * b07 + a02 * b06) * invDet,
      (-a30 * b03 + a31 * b01 - a32 * b00) * invDet, (a20 * b03 - a21 * b01 + a22 * b00) * invDet);
  }

  lemma MinorsOfCells(a: real, b: real, c: real, d: real, e: real, f: real, g: real, h: real,
                      xy: real, xz: real, xw: real, yz: real, yw: real, zw: real)
    requires xy == a * f - b * e && xz == a * g - c * e && xw == a * h - d * e
    requires yz == b * g - c * f && yw == b * h - d * f && zw == c * h - d * g
    ensures Wedge(Vec4(a, b, c, d), Vec4(e, f, g, h)) == Plane(xy, xz, xw, yz, yw, zw)
  {
  }

  lemma DeterminantOfMinors(m: Mat4, b00: real, b01: real, b02: real, b03: real, b04: real, b05: real,
                            b06: real, b07: real, b08: real, b09: real, b10: real, b11: real)
    requires Wedge(Column(m, 0), Column(m, 1)) == Plane(b00, b01, b02, b03, b04, b05)
    requires Wedge(Column(m, 2), Column(m, 3)) == Plane(b06, b07, b08, b09, b10, b11)
    ensures Determinant(m) == b00 * b11 - b01 * b10 + b02 * b09 + b03 * b08 - b04 * b07 + b05 * b06
  {
    DetByPairs(Column(m, 0), Column(m, 1), Column(m, 2), Column(m, 3));
    PairingOfCells(b00, b01, b02, b03, b04, b05, b06, b07, b08, b09, b10, b11);
  }

  lemma PairingOfCells(b00: real, b01: real, b02: real, b03: real, b04: real, b05: real,
                       b06: real, b07: real, b08: real, b09: real, b10: real, b11: real)
    ensures Pairing(Plane(b00, b01, b02, b03, b04, b05), Plane(b06, b07, b08, b09, b10, b11))
         == b00 * b11 - b01 * b10 + b02 * b09 + b03 * b08 - b04 * b07 + b05 * b06
  {
  }

  /** The sixteen cells the source computes are those of the inverse. */
  lemma InverseOfCells(m: Mat4, a00: real, a01: real, a02: real, a03: real, a10: real, a11: real, a12: real, a13: real,
                       a20: real, a21: real, a22: real, a23: real, a30: real, a31: real, a32: real, a33: real,
                       b00: real, b01: real, b02: real, b03: real, b04: real, b05: real,
                       b06: real, b07: real, b08: real, b09: real, b10: real, b11: real,
                       invDet: real)
    requires Column(m, 0) == Vec4(a00, a01, a02, a03) && Column(m, 1) == Vec4(a10, a11, a12, a13)
    requires Column(m, 2) == Vec4(a20, a21, a22, a23) && Column(m, 3) == Vec4(a30, a31, a32, a33)
    requires Wedge(Column(m, 0), Column(m, 1)) == Plane(b00, b01, b02, b03, b04, b05)
    requires Wedge(Column(m, 2), Column(m, 3)) == Plane(b06, b07, b08, b09, b10, b11)
    requires Determinant(m) != 0.0 && invDet == 1.0 / Determinant(m)
    ensures Inverse(m) == [
      (a11 * b11 - a12 * b10 + a13 * b09) * invDet, (-a01 * b11 + a02 * b10 - a03 * b09) * invDet,
      (a31 * b05 - a32 * b04 + a33 * b03) * invDet, (-a21 * b05 + a22 * b04 - a23 * b03) * invDet,
      (-a10 * b11 + a12 * b08 - a13 * b07) * invDet, (a00 * b11 - a02 * b08 + a03 * b07) * invDet,
      (-a30 * b05 + a32 * b02 - a33 * b01) * invDet, (a20 * b05 - a22 * b02 + a23 * b01) * invDet,
      (a10 * b10 - a11 * b08 + a13 * b06) * invDet, (-a00 * b10 + a01 * b08 - a03 * b06) * invDet,
      (a30 * b04 - a31 * b02 + a33 * b00) * invDet, (-a20 * b04 + a21 * b02 - a23 * b00) * invDet,
      (-a10 * b09 + a11 * b07 - a12 * b06) * invDet, (a00 * b09 - a01 * b07 + a02 * b06) * invDet,
      (-a30 * b03 + a31 * b01 - a32 * b00) * invDet, (a20 * b03 - a21 * b01 + a22 * b00) * invDet ]
  {
    var p, q, s, t := Column(m, 0), Column(m, 1), Column(m, 2), Column(m, 3);
    InverseRow(a10, a11, a12, a13, s, t, b06, b07, b08, b09, b10, b11, invDet);
    NegatedInverseRow(a00, a01, a02, a03, s, t, b06, b07, b08, b09, b10, b11, invDet);
    InverseRow(a30, a31, a32, a33, p, q, b00, b01, b02, b03, b04, b05, invDet);
    NegatedInverseRow(a20, a21, a22, a23, p, q, b00, b01, b02, b03, b04, b05, invDet);
    InverseByRows(m, invDet, Scale(Cross(q, s, t), invDet), Scale(Scale(Cross(p, s, t), -1.0), invDet),
                  Scale(Cross(t, p, q), invDet), Scale(Scale(Cross(s, p, q), -1.0), invDet));
  }

  lemma CrossOfMinors(a: real, b: real, c: real, d: real, v: Vec4, w: Vec4,
                      xy: real, xz: real, xw: real, yz: real, yw: real, zw: real)
    requires Wedge(v, w) == Plane(xy, xz, xw, yz, yw, zw)
    ensures Cross(Vec4(a, b, c, d), v, w)
         == Vec4(b * zw - c * yw + d * yz, -a * zw + c * xw - d * xz, a * yw - b * xw + d * xy, -a * yz + b * xz - c * xy)
  {
  }

  lemma NegatedSum(a: real, b: real, c: real, x: real, y: real, z: real)
    ensures (a * x - b * y + c * z) * -1.0 == -a * x + b * y - c * z
    ensures (-a * x + b * y - c * z) * -1.0 == a * x - b * y + c * z
  {
  }

  lemma InverseRow(a: real, b: real, c: real, d: real, v: Vec4, w: Vec4,
                   xy: real, xz: real, xw: real, yz: real, yw: real, zw: real, k: real)
    requires Wedge(v, w) == Plane(xy, xz, xw, yz, yw, zw)
    ensures Scale(Cross(Vec4(a, b, c, d), v, w), k)
         == Vec4((b * zw - c * yw + d * yz) * k, (-a * zw + c * xw - d * xz) * k,
                 (a * yw - b * xw + d * xy) * k, (-a * yz + b * xz - c * xy) * k)
  {
    CrossOfMinors(a, b, c, d, v, w, xy, xz, xw, yz, yw, zw);
    ScaleInFull(b * zw - c * yw + d * yz, -a * zw + c * xw - d * xz, a * yw - b * xw + d * xy, -a * yz + b * xz - c * xy, k);
  }

  lemma NegatedInverseRow(a: real, b: real, c: real, d: real, v: Vec4, w: Vec4,
                          xy: real, xz: real, xw: real, yz: real, yw: real, zw: real, k: real)
    requires Wedge(v, w) == Plane(xy, xz, xw, yz, yw, zw)
    ensures Scale(Scale(Cross(Vec4(a, b, c, d), v, w), -1.0), k)
         == Vec4((-b * zw + c * yw - d * yz) * k, (a * zw - c * xw + d * xz) * k,
                 (-a * yw + b * xw - d * xy) * k, (a * yz - b * xz + c * xy) * k)
  {
    CrossOfMinors(a, b, c, d, v, w, xy, xz, xw, yz, yw, zw);
    NegatedSum(b, c, d, zw, yw, yz);
    NegatedSum(a, c, d, zw, xw, xz);
    NegatedSum(a, b, d, yw, xw, xy);
    NegatedSum(a, b, c, yz, xz, xy);
    ScaleInFull(-b * zw + c * yw - d * yz, a * zw - c * xw + d * xz, -a * yw + b * xw - d * xy, a * yz - b * xz + c * xy, k);
  }

  lemma ScaleInFull(x: real, y: real, z: real, w: real, k: real)
    ensures Scale(Vec4(x, y, z, w), k) == Vec4(x * k, y * k, z * k, w * k)
  {
  }

  // ----- translation

  function Translation(x: real, y: real, z: real): Mat4 {
    OfColumns(Vec4(1.0, 0.0, 0.0, 0.0), Vec4(0.0, 1.0, 0.0, 0.0), Vec4(0.0, 0.0, 1.0, 0.0), Vec4(x, y, z, 1.0))
  }

  /** A translation moves points, which have a last coordinate of 1, and leaves directions alone. */
  lemma TranslationMoves(x: real, y: real, z: real, v: Vec4)
    ensures Apply(Translation(x, y, z), v) == Vec4(v.x + x * v.w, v.y + y * v.w, v.z + z * v.w, v.w)
  {
  }

  /** Multiplying by a translation changes the last column alone. */
  lemma TimesTranslation(m: Mat4, x: real, y: real, z: real)
    ensures Times(m, Translation(x, y, z))
         == OfColumns(Column(m, 0), Column(m, 1), Column(m, 2), Apply(m, Vec4(x, y, z, 1.0)))
  {
    var t := Translation(x, y, z);
    ApplyToUnit(m, Column(t, 0));
    ApplyToUnit(m, Column(t, 1));
    ApplyToUnit(m, Column(t, 2));
  }

  lemma InnerWithOne(a: real, b: real, c: real, d: real, x: real, y: real, z: real)
    ensures Inner(Vec4(a, b, c, d), Vec4(x, y, z, 1.0)) == a * x + b * y + c * z + d
  {
  }

  /** The last column that translating computes from the rows. */
  lemma TranslatedCells(m: Mat4, x: real, y: real, z: real,
                        a00: real, a01: real, a02: real, a03: real, a10: real, a11: real, a12: real, a13: real,
                        a20: real, a21: real, a22: real, a23: real, a30: real, a31: real, a32: real, a33: real)
    requires m == [a00, a01, a02, a03, a10, a11, a12, a13, a20, a21, a22, a23, a30, a31, a32, a33]
    ensures Times(m, Translation(x, y, z)) == [a00, a01, a02, a03, a10, a11, a12, a13, a20, a21, a22, a23,
      a00 * x + a10 * y + a20 * z + a30, a01 * x + a11 * y + a21 * z + a31,
      a02 * x + a12 * y + a22 * z + a32, a03 * x + a13 * y + a23 * z + a33]
  {
    TimesTranslation(m, x, y, z);
    InnerWithOne(a00, a10, a20, a30, x, y, z);
    InnerWithOne(a01, a11, a21, a31, x, y, z);
    InnerWithOne(a02, a12, a22, a32, x, y, z);
    InnerWithOne(a03, a13, a23, a33, x, y, z);
    assert Row(m, 0) == Vec4(a00, a10, a20, a30) && Row(m, 1) == Vec4(a01, a11, a21, a31);
    assert Row(m, 2) == Vec4(a02, a12, a22, a32) && Row(m, 3) == Vec4(a03, a13, a23, a33);
  }

  method Translate(mat: array<real>, vec: array<real>, dest: array?<real>) returns (r: array<real>)
    requires mat.Length == Target(dest, mat).Length == 16 && vec.Length == 3
    modifies Target(dest, mat)
    ensures r == Target(dest, mat)
    ensures r[..] == Times(old(mat[..]), Translation(old(vec[0]), old(vec[1]), old(vec[2])))
  {
    var x, y, z := vec[0], vec[1], vec[2];
    var a00, a01, a02, a03 := mat[0], mat[1], mat[2], mat[3];
    var a10, a11, a12, a13 := mat[4], mat[5], mat[6], mat[7];
    var a20, a21, a22, a23 := mat[8], mat[9], mat[10], mat[11];
    var a30, a31, a32, a33 := mat[12], mat[13], mat[14], mat[15];
    TranslatedCells(mat[..], x, y, z, a00, a01, a02, a03, a10, a11, a12, a13, a20, a21, a22, a23, a30, a31, a32, a33);
    if dest == null || mat == dest {
      mat[12] := a00 * x + a10 * y + a20 * z + a30;
      mat[13] := a01 * x + a11 * y + a21 * z + a31;
      mat[14] := a02 * x + a12 * y + a22 * z + a32;
      mat[15] := a03 * x + a13 * y + a23 * z + a33;
      return mat;
    }
    SetCells(dest, a00, a01, a02, a03, a10, a11, a12, a13, a20, a21, a22, a23,
      a00 * x + a10 * y + a20 * z + a30, a01 * x + a11 * y + a21 * z + a31,
      a02 * x + a12 * y + a22 * z + a32, a03 * x + a13 * y + a23 * z + a33);
    return dest;
  }
}
