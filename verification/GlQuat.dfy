/** The quaternion operations of src/gl-matrix.js on arrays that may be one and the same. */
module GlQuat {
  import opened Mat4s
  import opened Mat4Laws
  import opened Quat4s
  import opened GlMatrix

  method Multiply(quat: array<real>, quat2: array<real>, dest: array?<real>) returns (r: array<real>)
    requires quat.Length == quat2.Length == Target(dest, quat).Length == 4
    modifies Target(dest, quat)
    ensures r == Target(dest, quat)
    ensures r[..] == OfVec4(Product(ToVec4(old(quat[..])), ToVec4(old(quat2[..]))))
  {
    r := Target(dest, quat);
    var qax, qay, qaz, qaw := quat[0], quat[1], quat[2], quat[3];
    var qbx, qby, qbz, qbw := quat2[0], quat2[1], quat2[2], quat2[3];
    ProductCells(qax, qay, qaz, qaw, qbx, qby, qbz, qbw);
    assert ToVec4(quat[..]) == Vec4(qax, qay, qaz, qaw) && ToVec4(quat2[..]) == Vec4(qbx, qby, qbz, qbw);
    r[0] := qax * qbw + qaw * qbx + qay * qbz - qaz * qby;
    r[1] := qay * qbw + qaw * qby + qaz * qbx - qax * qbz;
    r[2] := qaz * qbw + qaw * qbz + qax * qby - qay * qbx;
    r[3] := qaw * qbw - qax * qbx - qay * qby - qaz * qbz;
  }

  lemma ProductCells(ax: real, ay: real, az: real, aw: real, bx: real, by': real, bz: real, bw: real)
    ensures Product(Vec4(ax, ay, az, aw), Vec4(bx, by', bz, bw))
         == Vec4(ax * bw + aw * bx + ay * bz - az * by', ay * bw + aw * by' + az * bx - ax * bz,
                 az * bw + aw * bz + ax * by' - ay * bx, aw * bw - ax * bx - ay * by' - az * bz)
  {
  }

  /** A vector of three as a quaternion without a real part. */
  function Pure(v: seq<real>): Vec4
    requires |v| == 3
  {
    Vec4(v[0], v[1], v[2], 0.0)
  }

  /** The vector turned by the quaternion. */
  method MultiplyVec3(quat: array<real>, vec: array<real>, dest: array?<real>) returns (r: array<real>)
    requires quat.Length == 4 && vec.Length == Target(dest, vec).Length == 3
    modifies Target(dest, vec)
    ensures r == Target(dest, vec)
    ensures Pure(r[..]) == Turned(ToVec4(quat[..]), Pure(old(vec[..])))
  {
    r := Target(dest, vec);
    var x, y, z := vec[0], vec[1], vec[2];
    var qx, qy, qz, qw := quat[0], quat[1], quat[2], quat[3];
    var ix := qw * x + qy * z - qz * y;
    var iy := qw * y + qz * x - qx * z;
    var iz := qw * z + qx * y - qy * x;
    var iw := -qx * x - qy * y - qz * z;
    TimesVector(qx, qy, qz, qw, x, y, z);
    TurnedCells(qx, qy, qz, qw, Vec4(x, y, z, 0.0), ix, iy, iz, iw);
    NoRealPart(qx, qy, qz, qw, x, y, z, ix, iy, iz, iw);
    assert ToVec4(quat[..]) == Vec4(qx, qy, qz, qw) && Pure(vec[..]) == Vec4(x, y, z, 0.0);
    r[0] := ix * qw + iw * -qx + iy * -qz - iz * -qy;
    r[1] := iy * qw + iw * -qy + iz * -qx - ix * -qz;
    r[2] := iz * qw + iw * -qz + ix * -qy - iy * -qx;
  }

  lemma TimesVector(qx: real, qy: real, qz: real, qw: real, x: real, y: real, z: real)
    ensures Product(Vec4(qx, qy, qz, qw), Vec4(x, y, z, 0.0))
         == Vec4(qw * x + qy * z - qz * y, qw * y + qz * x - qx * z, qw * z + qx * y - qy * x, -qx * x - qy * y - qz * z)
  {
    ProductCells(qx, qy, qz, qw, x, y, z, 0.0);
  }

  lemma TurnedInSteps(q: Vec4, v: Vec4, i: Vec4, c: Vec4)
    requires i == Product(q, v) && c == Conjugate(q)
    ensures Turned(q, v) == Product(i, c)
  {
  }

  lemma NoRealPart(qx: real, qy: real, qz: real, qw: real, x: real, y: real, z: real, ix: real, iy: real, iz: real, iw: real)
    requires ix == qw * x + qy * z - qz * y && iy == qw * y + qz * x - qx * z
    requires iz == qw * z + qx * y - qy * x && iw == -qx * x - qy * y - qz * z
    ensures iw * qw - ix * -qx - iy * -qy - iz * -qz == 0.0
  {
  }

  lemma TurnedCells(qx: real, qy: real, qz: real, qw: real, v: Vec4, ix: real, iy: real, iz: real, iw: real)
    requires Vec4(ix, iy, iz, iw) == Product(Vec4(qx, qy, qz, qw), v)
    ensures Turned(Vec4(qx, qy, qz, qw), v)
         == Vec4(ix * qw + iw * -qx + iy * -qz - iz * -qy, iy * qw + iw * -qy + iz * -qx - ix * -qz,
                 iz * qw + iw * -qz + ix * -qy - iy * -qx, iw * qw - ix * -qx - iy * -qy - iz * -qz)
  {
    ProductCells(ix, iy, iz, iw, -qx, -qy, -qz, qw);
    TurnedInSteps(Vec4(qx, qy, qz, qw), v, Vec4(ix, iy, iz, iw), Vec4(-qx, -qy, -qz, qw));
  }

  // ----- rotation matrices

  lemma RotationCells(x: real, y: real, z: real, w: real,
                      xx: real, xy: real, xz: real, yy: real, yz: real, zz: real, wx: real, wy: real, wz: real)
    requires xx == x * (x + x) && xy == x * (y + y) && xz == x * (z + z)
    requires yy == y * (y + y) && yz == y * (z + z) && zz == z * (z + z)
    requires wx == w * (x + x) && wy == w * (y + y) && wz == w * (z + z)
    ensures RotationX(x, y, z, w) == Vec4(1.0 - (yy + zz), xy + wz, xz - wy, 0.0)
    ensures RotationY(x, y, z, w) == Vec4(xy - wz, 1.0 - (xx + zz), yz + wx, 0.0)
    ensures RotationZ(x, y, z, w) == Vec4(xz + wy, yz - wx, 1.0 - (xx + yy), 0.0)
  {
  }

  method ToMat4(quat: array<real>, dest: array?<real>) returns (r: array<real>)
    requires quat.Length == 4 && (dest != null ==> dest.Length == 16)
    modifies if dest == null then {} else {dest}
    ensures if dest == null then fresh(r) else r == dest
    ensures r.Length == 16 && r[..] == Rotation(ToVec4(old(quat[..])))
  {
    if dest == null { r := new real[16]; } else { r := dest; }
    var x, y, z, w := quat[0], quat[1], quat[2], quat[3];
    var x2, y2, z2 := x + x, y + y, z + z;
    var xx, xy, xz := x * x2, x * y2, x * z2;
    var yy, yz, zz := y * y2, y * z2, z * z2;
    var wx, wy, wz := w * x2, w * y2, w * z2;
    RotationCells(x, y, z, w, xx, xy, xz, yy, yz, zz, wx, wy, wz);
    SetCells(r, 1.0 - (yy + zz), xy + wz, xz - wy, 0.0,
             xy - wz, 1.0 - (xx + zz), yz + wx, 0.0,
             xz + wy, yz - wx, 1.0 - (xx + yy), 0.0,
             0.0, 0.0, 0.0, 1.0);
  }

  /** A rotation under a translation: what the source says its result is equivalent to. */
  lemma TranslationTimesRotation(q: Vec4, x: real, y: real, z: real)
    ensures Times(Translation(x, y, z), Rotation(q))
         == OfColumns(RotationX(q.x, q.y, q.z, q.w), RotationY(q.x, q.y, q.z, q.w), RotationZ(q.x, q.y, q.z, q.w),
                      Vec4(x, y, z, 1.0))
  {
    ApplyToUnit(Translation(x, y, z), One());
  }

  method FromRotationTranslation(quat: array<real>, vec: array<real>, dest: array?<real>) returns (r: array<real>)
    requires quat.Length == 4 && vec.Length == 3 && (dest != null ==> dest.Length == 16)
    modifies if dest == null then {} else {dest}
    ensures if dest == null then fresh(r) else r == dest
    ensures r.Length == 16
    ensures r[..] == Times(Translation(old(vec[0]), old(vec[1]), old(vec[2])), Rotation(ToVec4(old(quat[..]))))
  {
    if dest == null { r := new real[16]; } else { r := dest; }
    var x, y, z, w := quat[0], quat[1], quat[2], quat[3];
    var x2, y2, z2 := x + x, y + y, z + z;
    var xx, xy, xz := x * x2, x * y2, x * z2;
    var yy, yz, zz := y * y2, y * z2, z * z2;
    var wx, wy, wz := w * x2, w * y2, w * z2;
    RotationCells(x, y, z, w, xx, xy, xz, yy, yz, zz, wx, wy, wz);
    TranslationTimesRotation(Vec4(x, y, z, w), vec[0], vec[1], vec[2]);
    assert ToVec4(quat[..]) == Vec4(x, y, z, w);
    SetCells(r, 1.0 - (yy + zz), xy + wz, xz - wy, 0.0,
             xy - wz, 1.0 - (xx + zz), yz + wx, 0.0,
             xz + wy, yz - wx, 1.0 - (xx + yy), 0.0,
             vec[0], vec[1], vec[2], 1.0);
  }
}
