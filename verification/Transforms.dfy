/** Rigid transforms over exact reals: the camera mount, the unit quaternion, the
    composition that puts a cloud in the map frame, and its inverse.  Each angle
    stands as its cosine and sine, a point of the unit circle. */
module Transforms {
  import opened Wrappers

  datatype Vec = Vec(x: real, y: real, z: real)

  /** A 3x3 matrix by rows. */
  datatype Mat = Mat(r0: Vec, r1: Vec, r2: Vec)

  /** A 4x4 transform with last row 0 0 0 1. */
  datatype Pose = Pose(rot: Mat, t: Vec)

  /** Cosine and sine of an angle. */
  datatype Angle = Angle(c: real, s: real) {
    predicate Valid() {
      c * c + s * s == 1.0
    }
  }

  function Dot(a: Vec, b: Vec): real { a.x * b.x + a.y * b.y + a.z * b.z }

  function Add(a: Vec, b: Vec): Vec { Vec(a.x + b.x, a.y + b.y, a.z + b.z) }

  function Neg(a: Vec): Vec { Vec(-a.x, -a.y, -a.z) }

  function Transpose(m: Mat): Mat {
    Mat(Vec(m.r0.x, m.r1.x, m.r2.x), Vec(m.r0.y, m.r1.y, m.r2.y), Vec(m.r0.z, m.r1.z, m.r2.z))
  }

  function Apply(m: Mat, v: Vec): Vec { Vec(Dot(m.r0, v), Dot(m.r1, v), Dot(m.r2, v)) }

  function Mul(a: Mat, b: Mat): Mat {
    var t := Transpose(b);
    Mat(Apply(t, a.r0), Apply(t, a.r1), Apply(t, a.r2))
  }

  function Compose(a: Pose, b: Pose): Pose { Pose(Mul(a.rot, b.rot), Add(Apply(a.rot, b.t), a.t)) }

  function Move(p: Pose, v: Vec): Vec { Add(Apply(p.rot, v), p.t) }

  /** The inverse by transpose and negate. */
  function InvertRigid(p: Pose): Pose {
    Pose(Transpose(p.rot), Neg(Apply(Transpose(p.rot), p.t)))
  }

  /** The transpose undoes the matrix on this vector, in either order. */
  ghost predicate Undone(m: Mat, v: Vec) {
    Apply(Transpose(m), Apply(m, v)) == v && Apply(m, Apply(Transpose(m), v)) == v
  }

  ghost predicate Orthonormal(m: Mat) {
    forall v :: Undone(m, v)
  }

  ghost predicate Rigid(p: Pose) {
    Orthonormal(p.rot)
  }

  // ---- Matrix algebra ----

  lemma DotApply(a: Vec, m: Mat, v: Vec)
    ensures Dot(Apply(Transpose(m), a), v) == Dot(a, Apply(m, v))
  {
  }

  lemma ApplyMul(a: Mat, b: Mat, v: Vec)
    ensures Apply(Mul(a, b), v) == Apply(a, Apply(b, v))
  {
    DotApply(a.r0, b, v);
    DotApply(a.r1, b, v);
    DotApply(a.r2, b, v);
  }

  lemma TransposeMul(a: Mat, b: Mat)
    ensures Transpose(Mul(a, b)) == Mul(Transpose(b), Transpose(a))
  {
  }

  lemma ApplyAdd(m: Mat, u: Vec, v: Vec)
    ensures Apply(m, Add(u, v)) == Add(Apply(m, u), Apply(m, v))
  {
  }

  lemma ApplyNeg(m: Mat, v: Vec)
    ensures Apply(m, Neg(v)) == Neg(Apply(m, v))
  {
  }

  lemma OrthonormalProduct(a: Mat, b: Mat)
    requires Orthonormal(a) && Orthonormal(b)
    ensures Orthonormal(Mul(a, b))
  {
    forall v ensures Undone(Mul(a, b), v) {
      ProductUndone(a, b, v);
    }
  }

  lemma ProductUndone(a: Mat, b: Mat, v: Vec)
    requires Orthonormal(a) && Orthonormal(b)
    ensures Undone(Mul(a, b), v)
  {
    var at, bt := Transpose(a), Transpose(b);
    TransposeMul(a, b);
    ApplyMul(a, b, v);
    ApplyMul(bt, at, Apply(a, Apply(b, v)));
    assert Undone(a, Apply(b, v)) && Undone(b, v);
    ApplyMul(bt, at, v);
    ApplyMul(a, b, Apply(bt, Apply(at, v)));
    assert Undone(b, Apply(at, v)) && Undone(a, v);
  }

  lemma OrthonormalTranspose(m: Mat)
    requires Orthonormal(m)
    ensures Orthonormal(Transpose(m))
  {
    forall v ensures Undone(Transpose(m), v) {
      assert Undone(m, v);
      assert Transpose(Transpose(m)) == m;
    }
  }

  // ---- The inverse ----

  lemma MoveBack(p: Pose, v: Vec)
    ensures Move(InvertRigid(p), Move(p, v)) == Apply(Transpose(p.rot), Apply(p.rot, v))
  {
    ApplyAdd(Transpose(p.rot), Apply(p.rot, v), p.t);
  }

  lemma MoveForth(p: Pose, v: Vec)
    requires Rigid(p)
    ensures Move(p, Move(InvertRigid(p), v)) == v
  {
    var back := Transpose(p.rot);
    ApplyAdd(p.rot, Apply(back, v), Neg(Apply(back, p.t)));
    ApplyNeg(p.rot, Apply(back, p.t));
    assert Undone(p.rot, v) && Undone(p.rot, p.t);
  }

  /** The transform and its cheap inverse undo each other on this point. */
  ghost predicate RoundTrips(p: Pose, v: Vec) {
    Move(InvertRigid(p), Move(p, v)) == v && Move(p, Move(InvertRigid(p), v)) == v
  }

  /** Going back and forth turns back and forth about the origin of the shift. */
  lemma ForthTurns(p: Pose, u: Vec)
    ensures Move(p, Move(InvertRigid(p), Add(u, p.t))) == Add(Apply(p.rot, Apply(Transpose(p.rot), u)), p.t)
  {
    var back := Transpose(p.rot);
    ApplyAdd(back, u, p.t);
    assert Move(InvertRigid(p), Add(u, p.t)) == Apply(back, u);
  }

  lemma RoundTripTurns(p: Pose, u: Vec)
    requires forall v :: RoundTrips(p, v)
    ensures Undone(p.rot, u)
  {
    MoveBack(p, u);
    assert RoundTrips(p, u);
    ForthTurns(p, u);
    assert RoundTrips(p, Add(u, p.t));
    SameShift(Apply(p.rot, Apply(Transpose(p.rot), u)), u, p.t);
  }

  lemma SameShift(a: Vec, b: Vec, t: Vec)
    requires Add(a, t) == Add(b, t)
    ensures a == b
  {
  }

  /** The cheap inverse undoes a transform on every point, both ways round, exactly when
      the rotation part is orthonormal. */
  lemma InverseIffRigid(p: Pose)
    ensures (forall v :: RoundTrips(p, v)) <==> Rigid(p)
  {
    if Rigid(p) {
      forall v ensures RoundTrips(p, v) {
        MoveBack(p, v);
        assert Undone(p.rot, v);
        MoveForth(p, v);
      }
    }
    if forall v :: RoundTrips(p, v) {
      forall u ensures Undone(p.rot, u) {
        RoundTripTurns(p, u);
      }
    }
  }

  lemma MoveCompose(a: Pose, b: Pose, v: Vec)
    ensures Move(Compose(a, b), v) == Move(a, Move(b, v))
  {
    ApplyMul(a.rot, b.rot, v);
    ApplyAdd(a.rot, Apply(b.rot, v), b.t);
  }

  lemma RigidCompose(a: Pose, b: Pose)
    requires Rigid(a) && Rigid(b)
    ensures Rigid(Compose(a, b))
  {
    OrthonormalProduct(a.rot, b.rot);
  }

  // ---- Rotations about an axis ----

  function RotX(a: Angle): Mat { Mat(Vec(1.0, 0.0, 0.0), Vec(0.0, a.c, -a.s), Vec(0.0, a.s, a.c)) }

  function RotY(a: Angle): Mat { Mat(Vec(a.c, 0.0, a.s), Vec(0.0, 1.0, 0.0), Vec(-a.s, 0.0, a.c)) }

  function RotZ(a: Angle): Mat { Mat(Vec(a.c, -a.s, 0.0), Vec(a.s, a.c, 0.0), Vec(0.0, 0.0, 1.0)) }

  /** Turning a plane vector and turning it back. */
  lemma TurnBack(a: Angle, x: real, y: real)
    requires a.Valid()
    ensures a.c * (a.c * x - a.s * y) + a.s * (a.s * x + a.c * y) == x
    ensures a.c * (a.s * x + a.c * y) - a.s * (a.c * x - a.s * y) == y
    ensures a.c * (a.c * x + a.s * y) - a.s * (a.c * y - a.s * x) == x
    ensures a.s * (a.c * x + a.s * y) + a.c * (a.c * y - a.s * x) == y
  {
    assert a.c * (a.c * x - a.s * y) + a.s * (a.s * x + a.c * y) == (a.c * a.c + a.s * a.s) * x;
    assert a.c * (a.s * x + a.c * y) - a.s * (a.c * x - a.s * y) == (a.c * a.c + a.s * a.s) * y;
    assert a.c * (a.c * x + a.s * y) - a.s * (a.c * y - a.s * x) == (a.c * a.c + a.s * a.s) * x;
    assert a.s * (a.c * x + a.s * y) + a.c * (a.c * y - a.s * x) == (a.c * a.c + a.s * a.s) * y;
  }

  lemma Turned(a: Angle, x: real, y: real, u: real, w: real)
    requires a.Valid() && u == a.c * x - a.s * y && w == a.s * x + a.c * y
    ensures a.c * u + a.s * w == x && a.c * w - a.s * u == y
  {
    TurnBack(a, x, y);
  }

  lemma TurnedBack(a: Angle, x: real, y: real, u: real, w: real)
    requires a.Valid() && u == a.c * x + a.s * y && w == a.c * y - a.s * x
    ensures a.c * u - a.s * w == x && a.s * u + a.c * w == y
  {
    TurnBack(a, x, y);
  }

  lemma ApplyRotX(a: Angle, v: Vec)
    ensures Apply(RotX(a), v) == Vec(v.x, a.c * v.y - a.s * v.z, a.s * v.y + a.c * v.z)
    ensures Apply(Transpose(RotX(a)), v) == Vec(v.x, a.c * v.y + a.s * v.z, a.c * v.z - a.s * v.y)
  {
  }

  lemma RotXBack(a: Angle, v: Vec, u: Vec)
    requires a.Valid() && u == Apply(RotX(a), v)
    ensures Apply(Transpose(RotX(a)), u) == v
  {
    ApplyRotX(a, v);
    ApplyRotX(a, u);
    Turned(a, v.y, v.z, u.y, u.z);
  }

  lemma RotXForth(a: Angle, v: Vec, u: Vec)
    requires a.Valid() && u == Apply(Transpose(RotX(a)), v)
    ensures Apply(RotX(a), u) == v
  {
    ApplyRotX(a, v);
    ApplyRotX(a, u);
    TurnedBack(a, v.y, v.z, u.y, u.z);
  }

  lemma RotXUndone(a: Angle, v: Vec)
    requires a.Valid()
    ensures Undone(RotX(a), v)
  {
    RotXBack(a, v, Apply(RotX(a), v));
    RotXForth(a, v, Apply(Transpose(RotX(a)), v));
  }

  lemma ApplyRotY(a: Angle, v: Vec)
    ensures Apply(RotY(a), v) == Vec(a.s * v.z + a.c * v.x, v.y, a.c * v.z - a.s * v.x)
    ensures Apply(Transpose(RotY(a)), v) == Vec(a.c * v.x - a.s * v.z, v.y, a.c * v.z + a.s * v.x)
  {
  }

  lemma RotYBack(a: Angle, v: Vec, u: Vec)
    requires a.Valid() && u == Apply(RotY(a), v)
    ensures Apply(Transpose(RotY(a)), u) == v
  {
    ApplyRotY(a, v);
    ApplyRotY(a, u);
    Turned(a, v.z, v.x, u.z, u.x);
  }

  lemma RotYForth(a: Angle, v: Vec, u: Vec)
    requires a.Valid() && u == Apply(Transpose(RotY(a)), v)
    ensures Apply(RotY(a), u) == v
  {
    ApplyRotY(a, v);
    ApplyRotY(a, u);
    TurnedBack(a, v.z, v.x, u.z, u.x);
  }

  lemma RotYUndone(a: Angle, v: Vec)
    requires a.Valid()
    ensures Undone(RotY(a), v)
  {
    RotYBack(a, v, Apply(RotY(a), v));
    RotYForth(a, v, Apply(Transpose(RotY(a)), v));
  }

  lemma ApplyRotZ(a: Angle, v: Vec)
    ensures Apply(RotZ(a), v) == Vec(a.c * v.x - a.s * v.y, a.s * v.x + a.c * v.y, v.z)
    ensures Apply(Transpose(RotZ(a)), v) == Vec(a.c * v.x + a.s * v.y, a.c * v.y - a.s * v.x, v.z)
  {
  }

  lemma RotZBack(a: Angle, v: Vec, u: Vec)
    requires a.Valid() && u == Apply(RotZ(a), v)
    ensures Apply(Transpose(RotZ(a)), u) == v
  {
    ApplyRotZ(a, v);
    ApplyRotZ(a, u);
    Turned(a, v.x, v.y, u.x, u.y);
  }

  lemma RotZForth(a: Angle, v: Vec, u: Vec)
    requires a.Valid() && u == Apply(Transpose(RotZ(a)), v)
    ensures Apply(RotZ(a), u) == v
  {
    ApplyRotZ(a, v);
    ApplyRotZ(a, u);
    TurnedBack(a, v.x, v.y, u.x, u.y);
  }

  lemma RotZUndone(a: Angle, v: Vec)
    requires a.Valid()
    ensures Undone(RotZ(a), v)
  {
    RotZBack(a, v, Apply(RotZ(a), v));
    RotZForth(a, v, Apply(Transpose(RotZ(a)), v));
  }

  lemma AxisRotations(a: Angle)
    requires a.Valid()
    ensures Orthonormal(RotX(a)) && Orthonormal(RotY(a)) && Orthonormal(RotZ(a))
  {
    forall v ensures Undone(RotX(a), v) { RotXUndone(a, v); }
    forall v ensures Undone(RotY(a), v) { RotYUndone(a, v); }
    forall v ensures Undone(RotZ(a), v) { RotZUndone(a, v); }
  }

  // ---- The camera mount ----

  /** Optical (x right, y down, z forward) to body (x forward, y left, z up). */
  const OPTICAL_TO_BODY := Mat(Vec(0.0, 0.0, 1.0), Vec(-1.0, 0.0, 0.0), Vec(0.0, -1.0, 0.0))

  lemma OpticalOrthonormal()
    ensures Orthonormal(OPTICAL_TO_BODY)
  {
  }

  datatype CameraMount = CameraMount(at: Vec, roll: Angle, pitch: Angle, yaw: Angle) {
    predicate Valid() {
      roll.Valid() && pitch.Valid() && yaw.Valid()
    }

    function Rotation(): Mat {
      var cr, sr := roll.c, roll.s;
      var cp, sp := pitch.c, pitch.s;
      var cy, sy := yaw.c, yaw.s;
      Mat(Vec(cy * cp, cy * sp * sr - sy * cr, cy * sp * cr + sy * sr),
          Vec(sy * cp, sy * sp * sr + cy * cr, sy * sp * cr - cy * sr),
          Vec(-sp, cp * sr, cp * cr))
    }

    function Matrix(): Pose {
      Pose(Mul(Rotation(), OPTICAL_TO_BODY), at)
    }
  }

  lemma RowTimes(p: real, q: real, r: real, v: Vec)
    ensures Dot(Vec(p, q, r), v) == p * v.x + q * v.y + r * v.z
  {
  }

  lemma ByRows(m: Mat, q: Mat, v: Vec, u: Vec)
    requires m == q && u == Vec(Dot(q.r0, v), Dot(q.r1, v), Dot(q.r2, v))
    ensures Apply(m, v) == u
  {
  }

  lemma TurnedRows(cy: real, sy: real, cp: real, sp: real, cr: real, sr: real, v: Vec)
    ensures Dot(Vec(cy * cp, cy * sp * sr - sy * cr, cy * sp * cr + sy * sr), v)
         == cy * (sp * (sr * v.y + cr * v.z) + cp * v.x) - sy * (cr * v.y - sr * v.z)
    ensures Dot(Vec(sy * cp, sy * sp * sr + cy * cr, sy * sp * cr - cy * sr), v)
         == sy * (sp * (sr * v.y + cr * v.z) + cp * v.x) + cy * (cr * v.y - sr * v.z)
  {
    RowTimes(cy * cp, cy * sp * sr - sy * cr, cy * sp * cr + sy * sr, v);
    RowTimes(sy * cp, sy * sp * sr + cy * cr, sy * sp * cr - cy * sr, v);
  }

  lemma TiltedRow(cp: real, sp: real, cr: real, sr: real, v: Vec)
    ensures Dot(Vec(-sp, cp * sr, cp * cr), v) == cp * (sr * v.y + cr * v.z) - sp * v.x
  {
    RowTimes(-sp, cp * sr, cp * cr, v);
  }

  /** Yaw after pitch after roll, of a vector, written out. */
  function TurnedVec(yaw: Angle, pitch: Angle, roll: Angle, v: Vec): Vec {
    var a, b := pitch.s * (roll.s * v.y + roll.c * v.z) + pitch.c * v.x, roll.c * v.y - roll.s * v.z;
    Vec(yaw.c * a - yaw.s * b, yaw.s * a + yaw.c * b, pitch.c * (roll.s * v.y + roll.c * v.z) - pitch.s * v.x)
  }

  lemma Turns(yaw: Angle, pitch: Angle, roll: Angle, v: Vec)
    ensures Apply(RotZ(yaw), Apply(RotY(pitch), Apply(RotX(roll), v))) == TurnedVec(yaw, pitch, roll, v)
  {
    var rolled := Vec(v.x, roll.c * v.y - roll.s * v.z, roll.s * v.y + roll.c * v.z);
    var pitched := Vec(pitch.s * rolled.z + pitch.c * rolled.x, rolled.y, pitch.c * rolled.z - pitch.s * rolled.x);
    ApplyRotX(roll, v);
    ApplyRotY(pitch, rolled);
    ApplyRotZ(yaw, pitched);
  }

  lemma MountTurns(m: CameraMount, v: Vec)
    ensures Apply(m.Rotation(), v) == TurnedVec(m.yaw, m.pitch, m.roll, v)
  {
    var cy, sy, cp, sp, cr, sr := m.yaw.c, m.yaw.s, m.pitch.c, m.pitch.s, m.roll.c, m.roll.s;
    TurnedRows(cy, sy, cp, sp, cr, sr, v);
    TiltedRow(cp, sp, cr, sr, v);
    ByRows(m.Rotation(),
           Mat(Vec(cy * cp, cy * sp * sr - sy * cr, cy * sp * cr + sy * sr),
               Vec(sy * cp, sy * sp * sr + cy * cr, sy * sp * cr - cy * sr),
               Vec(-sp, cp * sr, cp * cr)),
           v, TurnedVec(m.yaw, m.pitch, m.roll, v));
  }

  /** The written-out entries are yaw after pitch after roll. */
  lemma MountIsYawPitchRoll(m: CameraMount, v: Vec)
    ensures Apply(m.Rotation(), v) == Apply(RotZ(m.yaw), Apply(RotY(m.pitch), Apply(RotX(m.roll), v)))
  {
    Turns(m.yaw, m.pitch, m.roll, v);
    MountTurns(m, v);
  }

  lemma FlatColumn(cy: real, sy: real, cp: real, sp: real, v: Vec)
    ensures Dot(Vec(cy * cp, sy * cp, -sp), v) == cp * (cy * v.x + sy * v.y) - sp * v.z
  {
    RowTimes(cy * cp, sy * cp, -sp, v);
  }

  lemma BackColumns(cy: real, sy: real, cp: real, sp: real, cr: real, sr: real, v: Vec)
    ensures Dot(Vec(cy * sp * sr - sy * cr, sy * sp * sr + cy * cr, cp * sr), v)
         == cr * (cy * v.y - sy * v.x) + sr * (cp * v.z + sp * (cy * v.x + sy * v.y))
    ensures Dot(Vec(cy * sp * cr + sy * sr, sy * sp * cr - cy * sr, cp * cr), v)
         == cr * (cp * v.z + sp * (cy * v.x + sy * v.y)) - sr * (cy * v.y - sy * v.x)
  {
    RowTimes(cy * sp * sr - sy * cr, sy * sp * sr + cy * cr, cp * sr, v);
    RowTimes(cy * sp * cr + sy * sr, sy * sp * cr - cy * sr, cp * cr, v);
  }

  /** The turns undone, of a vector, written out. */
  function TurnedBackVec(yaw: Angle, pitch: Angle, roll: Angle, v: Vec): Vec {
    var a, b := yaw.c * v.x + yaw.s * v.y, yaw.c * v.y - yaw.s * v.x;
    Vec(pitch.c * a - pitch.s * v.z, roll.c * b + roll.s * (pitch.c * v.z + pitch.s * a),
        roll.c * (pitch.c * v.z + pitch.s * a) - roll.s * b)
  }

  lemma TurnsBack(yaw: Angle, pitch: Angle, roll: Angle, v: Vec)
    ensures Apply(Transpose(RotX(roll)), Apply(Transpose(RotY(pitch)), Apply(Transpose(RotZ(yaw)), v)))
         == TurnedBackVec(yaw, pitch, roll, v)
  {
    var turned := Vec(yaw.c * v.x + yaw.s * v.y, yaw.c * v.y - yaw.s * v.x, v.z);
    var pitched := Vec(pitch.c * turned.x - pitch.s * turned.z, turned.y, pitch.c * turned.z + pitch.s * turned.x);
    ApplyRotZ(yaw, v);
    ApplyRotY(pitch, turned);
    ApplyRotX(roll, pitched);
  }

  lemma MountTurnsBack(m: CameraMount, v: Vec)
    ensures Apply(Transpose(m.Rotation()), v) == TurnedBackVec(m.yaw, m.pitch, m.roll, v)
  {
    var cy, sy, cp, sp, cr, sr := m.yaw.c, m.yaw.s, m.pitch.c, m.pitch.s, m.roll.c, m.roll.s;
    FlatColumn(cy, sy, cp, sp, v);
    BackColumns(cy, sy, cp, sp, cr, sr, v);
    ByRows(Transpose(m.Rotation()),
           Mat(Vec(cy * cp, sy * cp, -sp),
               Vec(cy * sp * sr - sy * cr, sy * sp * sr + cy * cr, cp * sr),
               Vec(cy * sp * cr + sy * sr, sy * sp * cr - cy * sr, cp * cr)),
           v, TurnedBackVec(m.yaw, m.pitch, m.roll, v));
  }

  lemma MountTransposed(m: CameraMount, v: Vec)
    ensures Apply(Transpose(m.Rotation()), v)
         == Apply(Transpose(RotX(m.roll)), Apply(Transpose(RotY(m.pitch)), Apply(Transpose(RotZ(m.yaw)), v)))
  {
    TurnsBack(m.yaw, m.pitch, m.roll, v);
    MountTurnsBack(m, v);
  }

  /** One matrix acts as three that are each undone by their transposes. */
  lemma ThreeTurnsUndone(m: Mat, x: Mat, y: Mat, z: Mat, v: Vec)
    requires Orthonormal(x) && Orthonormal(y) && Orthonormal(z)
    requires forall u :: Acts(m, x, y, z, u)
    ensures Undone(m, v)
  {
    var a, b := Apply(x, v), Apply(Transpose(z), v);
    assert Undone(x, v) && Undone(y, a) && Undone(z, Apply(y, a));
    assert Undone(z, v) && Undone(y, b) && Undone(x, Apply(Transpose(y), b));
    assert Acts(m, x, y, z, v) && Acts(m, x, y, z, Apply(m, v)) && Acts(m, x, y, z, Apply(Transpose(m), v));
  }

  predicate Acts(m: Mat, x: Mat, y: Mat, z: Mat, u: Vec) {
    && Apply(m, u) == Apply(z, Apply(y, Apply(x, u)))
    && Apply(Transpose(m), u) == Apply(Transpose(x), Apply(Transpose(y), Apply(Transpose(z), u)))
  }

  lemma MountRotationIsOrthonormal(m: CameraMount)
    requires m.Valid()
    ensures Orthonormal(m.Rotation())
  {
    AxisRotations(m.roll);
    AxisRotations(m.pitch);
    AxisRotations(m.yaw);
    forall u ensures Acts(m.Rotation(), RotX(m.roll), RotY(m.pitch), RotZ(m.yaw), u) {
      MountIsYawPitchRoll(m, u);
      MountTransposed(m, u);
    }
    forall v ensures Undone(m.Rotation(), v) {
      ThreeTurnsUndone(m.Rotation(), RotX(m.roll), RotY(m.pitch), RotZ(m.yaw), v);
    }
  }

  lemma MountIsRigid(m: CameraMount)
    requires m.Valid()
    ensures Rigid(m.Matrix())
  {
    MountRotationIsOrthonormal(m);
    OpticalOrthonormal();
    OrthonormalProduct(m.Rotation(), OPTICAL_TO_BODY);
  }

  /** A level camera sees what is ahead of the lens ahead of the robot, what is to
      its right on the robot's right, and what is below it below. */
  lemma LevelMountAxes(at: Vec, v: Vec)
    ensures var level := Angle(1.0, 0.0);
            Move(CameraMount(at, level, level, level).Matrix(), v) == Add(Vec(v.z, -v.x, -v.y), at)
  {
    var level := Angle(1.0, 0.0);
    var m := CameraMount(at, level, level, level);
    LevelRotation(m);
    ApplyMul(m.Rotation(), OPTICAL_TO_BODY, v);
    OpticalAxes(v);
    ApplyIdentity(Apply(OPTICAL_TO_BODY, v));
  }

  const IDENTITY := Mat(Vec(1.0, 0.0, 0.0), Vec(0.0, 1.0, 0.0), Vec(0.0, 0.0, 1.0))

  lemma LevelRotation(m: CameraMount)
    requires m.roll == m.pitch == m.yaw == Angle(1.0, 0.0)
    ensures m.Rotation() == IDENTITY
  {
  }

  lemma ApplyIdentity(v: Vec)
    ensures Apply(IDENTITY, v) == v
  {
  }

  lemma OpticalAxes(v: Vec)
    ensures Apply(OPTICAL_TO_BODY, v) == Vec(v.z, -v.x, -v.y)
  {
  }

  lemma Ahead(rot: Mat, d: real, q: Vec)
    requires Apply(rot, Vec(d, 0.0, 0.0)) == q
    ensures Move(Pose(Mul(rot, OPTICAL_TO_BODY), Vec(0.0, 0.0, 0.0)), Vec(0.0, 0.0, d)) == q
  {
    OpticalAxes(Vec(0.0, 0.0, d));
    ApplyMul(rot, OPTICAL_TO_BODY, Vec(0.0, 0.0, d));
  }

  lemma PitchedAhead(pitch: Angle, d: real)
    ensures Apply(RotY(pitch), Vec(d, 0.0, 0.0)) == Vec(pitch.c * d, 0.0, -pitch.s * d)
  {
  }

  /** A positive pitch tips the lens down: a point straight ahead ends up lower. */
  lemma PositivePitchLooksDown(pitch: Angle, d: real)
    ensures var level := Angle(1.0, 0.0);
            Move(CameraMount(Vec(0.0, 0.0, 0.0), level, pitch, level).Matrix(), Vec(0.0, 0.0, d))
            == Vec(pitch.c * d, 0.0, -pitch.s * d)
  {
    PitchOnly(pitch);
    PitchedAhead(pitch, d);
    Ahead(RotY(pitch), d, Vec(pitch.c * d, 0.0, -pitch.s * d));
  }

  lemma PitchOnly(pitch: Angle)
    ensures CameraMount(Vec(0.0, 0.0, 0.0), Angle(1.0, 0.0), pitch, Angle(1.0, 0.0)).Rotation() == RotY(pitch)
  {
  }

  // ---- The robot's own camera pose ----

  function MatrixFromQuaternion(w: real, x: real, y: real, z: real): Mat {
    Mat(Vec(1.0 - 2.0 * (y * y + z * z), 2.0 * (x * y - z * w), 2.0 * (x * z + y * w)),
        Vec(2.0 * (x * y + z * w), 1.0 - 2.0 * (x * x + z * z), 2.0 * (y * z - x * w)),
        Vec(2.0 * (x * z - y * w), 2.0 * (y * z + x * w), 1.0 - 2.0 * (x * x + y * y)))
  }

  /** The product of two sums of two squares is one. */
  lemma TwoSquares(w: real, x: real, y: real, z: real)
    ensures (x * y + z * w) * (x * y + z * w) + (x * z - y * w) * (x * z - y * w) == (y * y + z * z) * (x * x + w * w)
  {
  }

  lemma UnitColumn(u: real, p: real, q: real)
    requires p * p + q * q == u * (1.0 - u)
    ensures Dot(Vec(1.0 - 2.0 * u, 2.0 * p, 2.0 * q), Vec(1.0 - 2.0 * u, 2.0 * p, 2.0 * q)) == 1.0
  {
  }

  lemma QuaternionDiagonal(w: real, x: real, y: real, z: real)
    requires w * w + x * x + y * y + z * z == 1.0
    ensures var t := Transpose(MatrixFromQuaternion(w, x, y, z)); Dot(t.r0, t.r0) == 1.0
  {
    var u, p, q := y * y + z * z, x * y + z * w, x * z - y * w;
    assert x * x + w * w == 1.0 - u;
    TwoSquares(w, x, y, z);
    UnitColumn(u, p, q);
  }

  lemma CrossTerms(w: real, x: real, y: real, z: real, n: real)
    requires n == w * w + x * x + y * y + z * z
    ensures (1.0 - 2.0 * (y * y + z * z)) * (2.0 * (x * y - z * w)) + 2.0 * (x * y + z * w) * (1.0 - 2.0 * (x * x + z * z))
            + 2.0 * (x * z - y * w) * (2.0 * (y * z + x * w)) == 4.0 * (x * y) - 4.0 * (x * y * n)
  {
  }

  lemma TimesOne(a: real, n: real)
    requires n == 1.0
    ensures a * n == a
  {
  }

  lemma QuaternionOffDiagonal(w: real, x: real, y: real, z: real)
    requires w * w + x * x + y * y + z * z == 1.0
    ensures var t := Transpose(MatrixFromQuaternion(w, x, y, z)); Dot(t.r0, t.r1) == 0.0
  {
    CrossTerms(w, x, y, z, w * w + x * x + y * y + z * z);
    TimesOne(x * y, w * w + x * x + y * y + z * z);
    RowTimes(1.0 - 2.0 * (y * y + z * z), 2.0 * (x * y + z * w), 2.0 * (x * z - y * w),
             Vec(2.0 * (x * y - z * w), 1.0 - 2.0 * (x * x + z * z), 2.0 * (y * z + x * w)));
  }

  /** Turning the axes round turns the columns round. */
  lemma QuaternionCycle(w: real, x: real, y: real, z: real)
    ensures var t, t' := Transpose(MatrixFromQuaternion(w, x, y, z)), Transpose(MatrixFromQuaternion(w, y, z, x));
            && Dot(t.r1, t.r1) == Dot(t'.r0, t'.r0) && Dot(t.r2, t.r2) == Dot(t'.r1, t'.r1)
            && Dot(t.r1, t.r2) == Dot(t'.r0, t'.r1) && Dot(t.r2, t.r0) == Dot(t'.r1, t'.r2)
  {
    CycleColumns(Transpose(MatrixFromQuaternion(w, x, y, z)), Transpose(MatrixFromQuaternion(w, y, z, x)));
  }

  lemma CycleColumns(t: Mat, t': Mat)
    requires t.r1 == Vec(t'.r0.z, t'.r0.x, t'.r0.y) && t.r2 == Vec(t'.r1.z, t'.r1.x, t'.r1.y)
    requires t.r0 == Vec(t'.r2.z, t'.r2.x, t'.r2.y)
    ensures Dot(t.r1, t.r1) == Dot(t'.r0, t'.r0) && Dot(t.r2, t.r2) == Dot(t'.r1, t'.r1)
    ensures Dot(t.r1, t.r2) == Dot(t'.r0, t'.r1) && Dot(t.r2, t.r0) == Dot(t'.r1, t'.r2)
  {
  }

  lemma DotCommutes(a: Vec, b: Vec)
    ensures Dot(a, b) == Dot(b, a)
  {
  }

  /** Orthonormal columns: the transpose undoes the matrix. */
  lemma ColumnsUndo(m: Mat, t: Mat, v: Vec)
    requires t == Transpose(m)
    requires Dot(t.r0, t.r0) == 1.0 && Dot(t.r1, t.r1) == 1.0 && Dot(t.r2, t.r2) == 1.0
    requires Dot(t.r0, t.r1) == 0.0 && Dot(t.r1, t.r2) == 0.0 && Dot(t.r2, t.r0) == 0.0
    ensures Apply(t, Apply(m, v)) == v
  {
    ApplyMul(t, m, v);
    DotCommutes(t.r0, t.r1);
    DotCommutes(t.r1, t.r2);
    DotCommutes(t.r2, t.r0);
    assert Mul(t, m) == Mat(Vec(1.0, 0.0, 0.0), Vec(0.0, 1.0, 0.0), Vec(0.0, 0.0, 1.0));
  }

  lemma QuaternionUndoes(w: real, x: real, y: real, z: real, v: Vec)
    requires w * w + x * x + y * y + z * z == 1.0
    ensures var m := MatrixFromQuaternion(w, x, y, z); Apply(Transpose(m), Apply(m, v)) == v
  {
    QuaternionDiagonal(w, x, y, z);
    QuaternionDiagonal(w, y, z, x);
    QuaternionDiagonal(w, z, x, y);
    QuaternionOffDiagonal(w, x, y, z);
    QuaternionOffDiagonal(w, y, z, x);
    QuaternionOffDiagonal(w, z, x, y);
    QuaternionCycle(w, x, y, z);
    QuaternionCycle(w, y, z, x);
    ColumnsUndo(MatrixFromQuaternion(w, x, y, z), Transpose(MatrixFromQuaternion(w, x, y, z)), v);
  }

  /** A unit quaternion's matrix is a rotation matrix; its transpose is the matrix
      of the conjugate. */
  lemma QuaternionIsOrthonormal(w: real, x: real, y: real, z: real)
    requires w * w + x * x + y * y + z * z == 1.0
    ensures Orthonormal(MatrixFromQuaternion(w, x, y, z))
  {
    var m := MatrixFromQuaternion(w, x, y, z);
    var back := MatrixFromQuaternion(w, -x, -y, -z);
    assert back == Transpose(m) && Transpose(back) == m;
    forall v ensures Undone(m, v) {
      QuaternionUndoes(w, x, y, z, v);
      QuaternionUndoes(w, -x, -y, -z, v);
    }
  }

  // ---- Which way it turns ----

  datatype Quaternion = Quaternion(w: real, x: real, y: real, z: real)

  /** Hamilton's product. */
  function Times(a: Quaternion, b: Quaternion): Quaternion {
    Quaternion(a.w * b.w - a.x * b.x - a.y * b.y - a.z * b.z,
               a.w * b.x + a.x * b.w + a.y * b.z - a.z * b.y,
               a.w * b.y - a.x * b.z + a.y * b.w + a.z * b.x,
               a.w * b.z + a.x * b.y - a.y * b.x + a.z * b.w)
  }

  function Conjugate(q: Quaternion): Quaternion { Quaternion(q.w, -q.x, -q.y, -q.z) }

  function Pure(v: Vec): Quaternion { Quaternion(0.0, v.x, v.y, v.z) }

  /** `q v q*`. */
  function Conjugated(q: Quaternion, v: Vec): Quaternion { Times(Times(q, Pure(v)), Conjugate(q)) }

  /** `q v q*` as a matrix, for a quaternion of any length. */
  function TurnOf(w: real, x: real, y: real, z: real): Mat {
    Mat(Vec(w * w + x * x - (y * y + z * z), 2.0 * (x * y - z * w), 2.0 * (x * z + y * w)),
        Vec(2.0 * (x * y + z * w), w * w + y * y - (x * x + z * z), 2.0 * (y * z - x * w)),
        Vec(2.0 * (x * z - y * w), 2.0 * (y * z + x * w), w * w + z * z - (x * x + y * y)))
  }

  /** A row times a vector, written out. */
  function Along(p: real, q: real, r: real, v: Vec): real { p * v.x + q * v.y + r * v.z }

  lemma DotAlong(r: Vec, v: Vec)
    ensures Dot(r, v) == Along(r.x, r.y, r.z, v)
  {
  }

  lemma ConjugatedX(w: real, x: real, y: real, z: real, v: Vec)
    ensures Conjugated(Quaternion(w, x, y, z), v).x
         == Along(w * w + x * x - (y * y + z * z), 2.0 * (x * y - z * w), 2.0 * (x * z + y * w), v)
  {
  }

  lemma ConjugatedW(w: real, x: real, y: real, z: real, v: Vec)
    ensures Conjugated(Quaternion(w, x, y, z), v).w == 0.0
  {
  }

  lemma ConjugatedY(w: real, x: real, y: real, z: real, v: Vec)
    ensures Conjugated(Quaternion(w, x, y, z), v).y
         == Along(2.0 * (x * y + z * w), w * w + y * y - (x * x + z * z), 2.0 * (y * z - x * w), v)
  {
  }

  lemma ConjugatedZ(w: real, x: real, y: real, z: real, v: Vec)
    ensures Conjugated(Quaternion(w, x, y, z), v).z
         == Along(2.0 * (x * z - y * w), 2.0 * (y * z + x * w), w * w + z * z - (x * x + y * y), v)
  {
  }

  lemma ConjugatedIsTurn(w: real, x: real, y: real, z: real, v: Vec)
    ensures Conjugated(Quaternion(w, x, y, z), v) == Pure(Apply(TurnOf(w, x, y, z), v))
  {
    var m := TurnOf(w, x, y, z);
    ConjugatedW(w, x, y, z, v);
    ConjugatedX(w, x, y, z, v);
    ConjugatedY(w, x, y, z, v);
    ConjugatedZ(w, x, y, z, v);
    DotAlong(m.r0, v);
    DotAlong(m.r1, v);
    DotAlong(m.r2, v);
  }

  lemma UnitTurn(w: real, x: real, y: real, z: real)
    requires w * w + x * x + y * y + z * z == 1.0
    ensures TurnOf(w, x, y, z) == MatrixFromQuaternion(w, x, y, z)
  {
  }

  /** A unit quaternion's matrix turns every vector as `q v q*` does. */
  lemma QuaternionTurns(w: real, x: real, y: real, z: real, v: Vec)
    requires w * w + x * x + y * y + z * z == 1.0
    ensures Conjugated(Quaternion(w, x, y, z), v) == Pure(Apply(MatrixFromQuaternion(w, x, y, z), v))
  {
    ConjugatedIsTurn(w, x, y, z, v);
    UnitTurn(w, x, y, z);
  }

  /** Cosine and sine of twice the angle. */
  function Doubled(a: Angle): Angle { Angle(a.c * a.c - a.s * a.s, 2.0 * (a.c * a.s)) }

  /** Half an angle about an axis turns by the whole angle about it. */
  lemma HalfAngleTurns(a: Angle)
    requires a.Valid()
    ensures MatrixFromQuaternion(a.c, a.s, 0.0, 0.0) == RotX(Doubled(a))
    ensures MatrixFromQuaternion(a.c, 0.0, a.s, 0.0) == RotY(Doubled(a))
    ensures MatrixFromQuaternion(a.c, 0.0, 0.0, a.s) == RotZ(Doubled(a))
  {
  }

  // ---- The decoder ----

  datatype OdomError = WrongFrame | TooFar | NotARotation

  const MAX_CAMERA_OFFSET_M := 2.0

  /** The robot's camera block as a transform.  `dist` and `norm` are the square
      roots the source takes: of the squared offset and the squared quaternion. */
  function DecodeCamera(frame: string, baseFrame: string, at: Vec, w: real, x: real, y: real, z: real,
                        dist: real, norm: real): Result<Pose, OdomError>
    requires dist >= 0.0 && dist * dist == Dot(at, at)
    requires norm >= 0.0 && norm * norm == w * w + x * x + y * y + z * z
  {
    if frame != baseFrame then Err(WrongFrame)
    else if dist > MAX_CAMERA_OFFSET_M then Err(TooFar)
    else if norm < 0.000001 then Err(NotARotation)
    else Ok(Pose(MatrixFromQuaternion(w / norm, x / norm, y / norm, z / norm), at))
  }

  lemma NormalisedIsUnit(w: real, x: real, y: real, z: real, norm: real)
    requires norm > 0.0 && norm * norm == w * w + x * x + y * y + z * z
    ensures (w / norm) * (w / norm) + (x / norm) * (x / norm) + (y / norm) * (y / norm) + (z / norm) * (z / norm) == 1.0
  {
    var a, b, c, d := w / norm, x / norm, y / norm, z / norm;
    var q := a * a + b * b + c * c + d * d;
    assert w == a * norm && x == b * norm && y == c * norm && z == d * norm;
    assert w * w == a * a * (norm * norm) && x * x == b * b * (norm * norm);
    assert y * y == c * c * (norm * norm) && z * z == d * d * (norm * norm);
    var n := norm * norm;
    assert q * n == a * a * n + b * b * n + c * c * n + d * d * n;
    ZeroFactor(norm, norm);
    ZeroFactor(q - 1.0, n);
  }

  lemma ZeroFactor(a: real, b: real)
    requires b > 0.0
    ensures a > 0.0 ==> a * b > 0.0
    ensures a * b == 0.0 ==> a == 0.0
  {
    if a < 0.0 {
      assert (-a) * b > 0.0;
    }
  }

  /** A block is refused exactly for another base, an offset over two metres, or a
      quaternion shorter than a millionth, in that order. */
  lemma CameraRefusedIff(frame: string, baseFrame: string, at: Vec, w: real, x: real, y: real, z: real, dist: real, norm: real)
    requires dist >= 0.0 && dist * dist == Dot(at, at)
    requires norm >= 0.0 && norm * norm == w * w + x * x + y * y + z * z
    ensures var r := DecodeCamera(frame, baseFrame, at, w, x, y, z, dist, norm);
            var far, short := Dot(at, at) > 4.0, w * w + x * x + y * y + z * z < 0.000000000001;
            && (r == Err(WrongFrame) <==> frame != baseFrame)
            && (r == Err(TooFar) <==> frame == baseFrame && far)
            && (r == Err(NotARotation) <==> frame == baseFrame && !far && short)
  {
    SquareOrder(dist, 2.0);
    SquareOrder(norm, 0.000001);
  }

  lemma SquareOrder(a: real, b: real)
    requires a >= 0.0 && b > 0.0
    ensures a > b <==> a * a > b * b
    ensures a < b <==> a * a < b * b
  {
    if a > b {
      assert a * a - b * b == (a - b) * (a + b);
      ZeroFactor(a - b, a + b);
    } else if a < b {
      assert b * b - a * a == (b - a) * (a + b);
      ZeroFactor(b - a, a + b);
    }
  }

  /** Whatever quaternion the robot sends, a camera block that is accepted is a
      rigid transform at the given offset. */
  lemma DecodedCameraIsRigid(frame: string, baseFrame: string, at: Vec, w: real, x: real, y: real, z: real,
                             dist: real, norm: real)
    requires dist >= 0.0 && dist * dist == Dot(at, at)
    requires norm >= 0.0 && norm * norm == w * w + x * x + y * y + z * z
    ensures var r := DecodeCamera(frame, baseFrame, at, w, x, y, z, dist, norm);
            r.Ok? ==> Rigid(r.value) && r.value.t == at
  {
    if norm >= 0.000001 {
      NormalisedIsUnit(w, x, y, z, norm);
      QuaternionIsOrthonormal(w / norm, x / norm, y / norm, z / norm);
    }
  }

  /** A camera that is accepted is turned as the quaternion sent turns it, brought to
      length one. */
  lemma DecodedCameraTurns(frame: string, baseFrame: string, at: Vec, w: real, x: real, y: real, z: real,
                           dist: real, norm: real, q: Quaternion, v: Vec)
    requires dist >= 0.0 && dist * dist == Dot(at, at)
    requires norm >= 0.0 && norm * norm == w * w + x * x + y * y + z * z
    requires norm * q.w == w && norm * q.x == x && norm * q.y == y && norm * q.z == z
    ensures var r := DecodeCamera(frame, baseFrame, at, w, x, y, z, dist, norm);
            r.Ok? ==> Conjugated(q, v) == Pure(Apply(r.value.rot, v))
  {
    if norm >= 0.000001 {
      NormalisedIsUnit(w, x, y, z, norm);
      MulDiv(q.w, w, norm);
      MulDiv(q.x, x, norm);
      MulDiv(q.y, y, norm);
      MulDiv(q.z, z, norm);
      QuaternionTurns(w / norm, x / norm, y / norm, z / norm, v);
    }
  }

  // ---- Cloud to map and back ----

  /** The robot's planar pose, and its own figure for the camera when it has one. */
  datatype Odom = Odom(at: Vec, yaw: Angle, frame: string, camera: Option<Pose>)

  function MapFromBase(odom: Odom): Pose {
    Pose(RotZ(odom.yaw), odom.at)
  }

  function MapFromCloud(poseC2w: Pose, odom: Odom, mount: CameraMount): Pose {
    var baseFromCamera := if odom.camera.Some? then odom.camera.value else mount.Matrix();
    Compose(Compose(MapFromBase(odom), baseFromCamera), InvertRigid(poseC2w))
  }

  function CloudToMap(p: Vec, poseC2w: Pose, odom: Odom, mount: CameraMount): Vec {
    Move(MapFromCloud(poseC2w, odom, mount), p)
  }

  function MapToCloud(p: Vec, poseC2w: Pose, odom: Odom, mount: CameraMount): Vec {
    Move(InvertRigid(MapFromCloud(poseC2w, odom, mount)), p)
  }

  lemma MapFromCloudIsRigid(poseC2w: Pose, odom: Odom, mount: CameraMount)
    requires Rigid(poseC2w) && odom.yaw.Valid() && mount.Valid()
    requires odom.camera.Some? ==> Rigid(odom.camera.value)
    ensures Rigid(MapFromCloud(poseC2w, odom, mount))
  {
    var camera := if odom.camera.Some? then odom.camera.value else mount.Matrix();
    MountIsRigid(mount);
    AxisRotations(odom.yaw);
    RigidCompose(MapFromBase(odom), camera);
    OrthonormalTranspose(poseC2w.rot);
    RigidCompose(Compose(MapFromBase(odom), camera), InvertRigid(poseC2w));
  }

  /** A coordinate taken to the map and back, or to the cloud and back, is itself. */
  lemma CloudRoundTrip(p: Vec, poseC2w: Pose, odom: Odom, mount: CameraMount)
    requires Rigid(poseC2w) && odom.yaw.Valid() && mount.Valid()
    requires odom.camera.Some? ==> Rigid(odom.camera.value)
    ensures MapToCloud(CloudToMap(p, poseC2w, odom, mount), poseC2w, odom, mount) == p
    ensures CloudToMap(MapToCloud(p, poseC2w, odom, mount), poseC2w, odom, mount) == p
  {
    var m := MapFromCloud(poseC2w, odom, mount);
    MapFromCloudIsRigid(poseC2w, odom, mount);
    MoveBack(m, p);
    MoveForth(m, p);
    assert Undone(m.rot, p);
  }

  /** The camera's own centre, wherever the model put it, lands at the robot's
      figure for the camera: offset turned by the heading, then shifted. */
  lemma CameraCentreLandsOnTheRobot(poseC2w: Pose, odom: Odom, mount: CameraMount)
    requires Rigid(poseC2w) && odom.camera.None?
    ensures CloudToMap(poseC2w.t, poseC2w, odom, mount) == Add(Apply(RotZ(odom.yaw), mount.at), odom.at)
  {
    var camera := mount.Matrix();
    MoveCompose(Compose(MapFromBase(odom), camera), InvertRigid(poseC2w), poseC2w.t);
    MoveCompose(MapFromBase(odom), camera, Vec(0.0, 0.0, 0.0));
    CentreIsOrigin(poseC2w);
    ApplyZero(camera.rot);
  }

  /** What the camera sees at `p`, wherever the model put it, lands where the robot's
      pose puts what its camera sees at `p`. */
  lemma SeenPointLands(p: Vec, poseC2w: Pose, odom: Odom, mount: CameraMount)
    requires Rigid(poseC2w)
    ensures var camera := if odom.camera.Some? then odom.camera.value else mount.Matrix();
            CloudToMap(Move(poseC2w, p), poseC2w, odom, mount) == Add(Apply(RotZ(odom.yaw), Move(camera, p)), odom.at)
  {
    var camera := if odom.camera.Some? then odom.camera.value else mount.Matrix();
    MoveCompose(Compose(MapFromBase(odom), camera), InvertRigid(poseC2w), Move(poseC2w, p));
    MoveCompose(MapFromBase(odom), camera, p);
    MoveBack(poseC2w, p);
    assert Undone(poseC2w.rot, p);
  }

  lemma CentreIsOrigin(p: Pose)
    ensures Move(InvertRigid(p), p.t) == Vec(0.0, 0.0, 0.0)
  {
  }

  lemma ApplyZero(m: Mat)
    ensures Apply(m, Vec(0.0, 0.0, 0.0)) == Vec(0.0, 0.0, 0.0)
  {
  }

  // ---- World and cell coordinates ----

  datatype Flat = Flat(x: real, y: real)

  datatype Cell = Cell(col: int, row: int)

  /** Where a grid lies: `turned` is false for a yaw of exactly zero, for which the
      source skips the rotation. */
  datatype Geometry = Geometry(resolution: real, ox: real, oy: real, turned: bool, yaw: Angle) {
    predicate Valid() {
      resolution > 0.0 && yaw.Valid()
    }

    /** World offsets turned into the grid's own axes. */
    function IntoGrid(d: Flat): Flat {
      if turned then Flat(yaw.c * d.x + yaw.s * d.y, yaw.c * d.y - yaw.s * d.x) else d
    }

    function OutOfGrid(d: Flat): Flat {
      if turned then Flat(yaw.c * d.x - yaw.s * d.y, yaw.s * d.x + yaw.c * d.y) else d
    }

    function WorldToCell(x: real, y: real): Cell
      requires resolution > 0.0
    {
      var d := IntoGrid(Flat(x - ox, y - oy));
      Cell((d.x / resolution).Floor, (d.y / resolution).Floor)
    }

    /** A cell's centre, in the grid's own axes. */
    function CentreOffset(col: real, row: real): Flat {
      Flat((col + 0.5) * resolution, (row + 0.5) * resolution)
    }

    function CellToWorld(col: real, row: real): Flat {
      var d := OutOfGrid(CentreOffset(col, row));
      Flat(d.x + ox, d.y + oy)
    }
  }

  lemma MulDiv(a: real, x: real, r: real)
    requires r > 0.0 && x == a * r
    ensures x / r == a
  {
    var q := x / r;
    assert q * r == x;
    assert (q - a) * r == 0.0;
    ZeroFactor(q - a, r);
  }

  lemma GridTurn(g: Geometry, d: Flat)
    requires g.Valid()
    ensures g.IntoGrid(g.OutOfGrid(d)) == d
  {
    TurnBack(g.yaw, d.x, d.y);
  }

  lemma CellOf(g: Geometry, d: Flat, at: Flat, a: real, b: real)
    requires g.Valid() && g.IntoGrid(d) == at
    requires at.x == a * g.resolution && at.y == b * g.resolution
    ensures g.WorldToCell(d.x + g.ox, d.y + g.oy) == Cell(a.Floor, b.Floor)
  {
    assert Flat(d.x + g.ox - g.ox, d.y + g.oy - g.oy) == d;
    MulDiv(a, at.x, g.resolution);
    MulDiv(b, at.y, g.resolution);
  }

  lemma CentreOf(g: Geometry, at: Flat, a: real, b: real)
    requires g.Valid() && at.x == a * g.resolution && at.y == b * g.resolution
    ensures var d := g.OutOfGrid(at); g.WorldToCell(d.x + g.ox, d.y + g.oy) == Cell(a.Floor, b.Floor)
  {
    GridTurn(g, at);
    CellOf(g, g.OutOfGrid(at), at, a, b);
  }

  /** Any point of the plane, given in cells along the grid's axes, falls in the cell that
      its coordinates round down to. */
  lemma PointFallsInItsSquare(g: Geometry, u: real, v: real)
    requires g.Valid()
    ensures var p := g.CellToWorld(u - 0.5, v - 0.5); g.WorldToCell(p.x, p.y) == Cell(u.Floor, v.Floor)
  {
    CentreOf(g, g.CentreOffset(u - 0.5, v - 0.5), u, v);
  }

  lemma HalfFloor(n: int)
    ensures (n as real + 0.5).Floor == n
  {
  }

  /** The centre of every cell, in or out of bounds, is in that cell. */
  lemma CellRoundTrip(g: Geometry, col: int, row: int)
    requires g.Valid()
    ensures var p := g.CellToWorld(col as real, row as real); g.WorldToCell(p.x, p.y) == Cell(col, row)
  {
    CentreOf(g, g.CentreOffset(col as real, row as real), col as real + 0.5, row as real + 0.5);
    HalfFloor(col);
    HalfFloor(row);
  }

  /** A turned grid's columns and rows run along axes turned by its yaw, about its
      origin; one that is not turned, along the world's. */
  lemma CellCentresAreTurned(g: Geometry, col: real, row: real)
    requires g.turned || g.yaw == Angle(1.0, 0.0)
    ensures var p, q := g.CellToWorld(col, row), Apply(RotZ(g.yaw), Vec((col + 0.5) * g.resolution, (row + 0.5) * g.resolution, 0.0));
            p.x == g.ox + q.x && p.y == g.oy + q.y
  {
    var d := g.CentreOffset(col, row);
    ApplyRotZ(g.yaw, Vec(d.x, d.y, 0.0));
    ApplyIdentity(Vec(d.x, d.y, 0.0));
  }
}
