/**
 The first-person camera of the textured-cube program (04/camera.c,
 04/camera.h): a position, a horizontal angle (yaw), a vertical angle (pitch)
 and the projection parameters, with the rules that keep the angles in range,
 turn the camera, aim it, and move it along one of six camera-local axes.

 Floats are modelled as reals. The matrices come from a matrix library that is
 not part of this model: the inverse of the orientation matrix is a parameter
 `inv` of type `InverseOrientation`, an arbitrary function of the two angles,
 and the trigonometry of `LookAt` is a parameter `aim`.
 */
module Camera {
  import opened Vectors
  import opened Wrappers
  import opened Angles

  /** The six camera-local movement directions, in the order of the C enum. */
  datatype Direction = Left | Right | Up | Down | Forward | Backward

  /** The integer the C enum gives each direction: LEFT is 0, ..., BACKWARD is 5. */
  function Ord(d: Direction): (n: int)
    ensures 0 <= n <= 5
  {
    match d
    case Left => 0
    case Right => 1
    case Up => 2
    case Down => 3
    case Forward => 4
    case Backward => 5
  }

  /** The direction an integer names, if any. */
  function FromOrd(n: int): (r: Option<Direction>)
    ensures r.Some? <==> 0 <= n <= 5
    ensures r.Some? ==> Ord(r.value) == n
  {
    if n == 0 then Some(Left)
    else if n == 1 then Some(Right)
    else if n == 2 then Some(Up)
    else if n == 3 then Some(Down)
    else if n == 4 then Some(Forward)
    else if n == 5 then Some(Backward)
    else None
  }

  /** The enum values are pairwise distinct, and `FromOrd` inverts `Ord`. */
  lemma OrdInjective(a: Direction, b: Direction)
    ensures Ord(a) == Ord(b) <==> a == b
    ensures FromOrd(Ord(a)) == Some(a)
  {
  }

  /** No direction is negative, so the value -1 can stand for "no direction". */
  lemma NoDirectionIsSentinel(d: Direction)
    ensures Ord(d) != -1
    ensures FromOrd(-1) == None
  {
  }

  /** The other member of a direction's pair. */
  function Opposite(d: Direction): (r: Direction)
    ensures r != d
  {
    match d
    case Left => Right
    case Right => Left
    case Up => Down
    case Down => Up
    case Forward => Backward
    case Backward => Forward
  }

  lemma OppositeInvolutive(d: Direction)
    ensures Opposite(Opposite(d)) == d
  {
  }

  /** The camera record (struct camera). Angles are in degrees. */
  datatype Cam = Cam(
    pos: Vec3,
    horizAngle: real,
    vertAngle: real,
    fov: real,
    nearPlane: real,
    farPlane: real,
    vpAspectRatio: real)

  /** The camera invariant: yaw in [0, 360), pitch in [-85, 85]. */
  predicate Normalized(c: Cam)
  {
    0.0 <= c.horizAngle < FULL_TURN && -MAX_VERT_ANGLE <= c.vertAngle <= MAX_VERT_ANGLE
  }

  /** `a` and `b` agree on everything except the two angles. */
  predicate SameExceptAngles(a: Cam, b: Cam)
  {
    a.pos == b.pos && a.fov == b.fov && a.nearPlane == b.nearPlane
    && a.farPlane == b.farPlane && a.vpAspectRatio == b.vpAspectRatio
  }

  /** `a` and `b` agree on everything except the position. */
  predicate SameExceptPos(a: Cam, b: Cam)
  {
    a.horizAngle == b.horizAngle && a.vertAngle == b.vertAngle && a.fov == b.fov
    && a.nearPlane == b.nearPlane && a.farPlane == b.farPlane
    && a.vpAspectRatio == b.vpAspectRatio
  }

  /** cam_norm_angles: wrap the yaw into [0, 360) and clamp the pitch to [-85, 85]. */
  function NormAngles(c: Cam): (r: Cam)
    ensures Normalized(r)
    ensures SameExceptAngles(c, r)
    ensures SameAngle(r.horizAngle, c.horizAngle)
    ensures -MAX_VERT_ANGLE <= c.vertAngle <= MAX_VERT_ANGLE ==> r.vertAngle == c.vertAngle
    ensures c.vertAngle > MAX_VERT_ANGLE ==> r.vertAngle == MAX_VERT_ANGLE
    ensures c.vertAngle < -MAX_VERT_ANGLE ==> r.vertAngle == -MAX_VERT_ANGLE
  {
    c.(horizAngle := NormYaw(c.horizAngle), vertAngle := ClampPitch(c.vertAngle))
  }

  /** A camera that already satisfies the invariant is not changed by normalising. */
  lemma NormAnglesFixesNormalized(c: Cam)
    requires Normalized(c)
    ensures NormAngles(c) == c
  {
    NormYawFixesInRange(c.horizAngle);
  }

  lemma NormAnglesIdempotent(c: Cam)
    ensures NormAngles(NormAngles(c)) == NormAngles(c)
  {
    NormAnglesFixesNormalized(NormAngles(c));
  }

  /**
   cam_offset_orientation: the first delta turns the yaw, the second the
   pitch, then the angles are normalised. (The header declares the parameters
   as (up, right); the definition, followed here, names them (right, down).)
   */
  function OffsetOrientation(c: Cam, right: real, down: real): (r: Cam)
    ensures Normalized(r)
    ensures SameExceptAngles(c, r)
    ensures SameAngle(r.horizAngle, c.horizAngle + right)
    ensures -MAX_VERT_ANGLE <= c.vertAngle + down <= MAX_VERT_ANGLE ==> r.vertAngle == c.vertAngle + down
    ensures c.vertAngle + down > MAX_VERT_ANGLE ==> r.vertAngle == MAX_VERT_ANGLE
    ensures c.vertAngle + down < -MAX_VERT_ANGLE ==> r.vertAngle == -MAX_VERT_ANGLE
  {
    NormAngles(c.(horizAngle := c.horizAngle + right, vertAngle := c.vertAngle + down))
  }

  /** Two horizontal turns in a row land on the same yaw as one turn by their sum. */
  lemma OffsetYawComposes(c: Cam, a: real, b: real)
    ensures OffsetOrientation(OffsetOrientation(c, a, 0.0), b, 0.0).horizAngle
         == OffsetOrientation(c, a + b, 0.0).horizAngle
  {
    var h := c.horizAngle + a;
    var first := OffsetOrientation(c, a, 0.0);
    assert first.horizAngle == NormYaw(h);
    assert OffsetOrientation(first, b, 0.0).horizAngle == NormYaw(NormYaw(h) + b);
    assert OffsetOrientation(c, a + b, 0.0).horizAngle == NormYaw(h + b) by {
      assert c.horizAngle + (a + b) == h + b;
    }
    NormYawAdd(h, b);
  }

  /** Worked examples: turning by 370 from yaw 0 gives 10; tilting by 200 from pitch 0 gives 85. */
  lemma OffsetExamples(c: Cam)
    requires c.horizAngle == 0.0 && c.vertAngle == 0.0
    ensures OffsetOrientation(c, 370.0, 0.0).horizAngle == 10.0
    ensures OffsetOrientation(c, 0.0, 200.0).vertAngle == 85.0
  {
    assert 10.0 - 370.0 == Turns(-1);
    NormYawCharacterised(370.0, 10.0);
  }

  /** A raw (pitch, yaw) pair in degrees, before normalisation. */
  datatype RawAngles = RawAngles(vert: real, horiz: real)

  /**
   The trigonometry of cam_look_at: from the offset target - position, the
   raw pitch and yaw it assigns before normalising (vec3_norm, asinf, atan2f
   and the degree conversions, none of which is modelled).
   */
  type Aim = Vec3 -> RawAngles

  /** What cam_look_at leaves behind: the camera, and the caller's target vector. */
  datatype Aimed = Aimed(cam: Cam, target: Vec3)

  /**
   cam_look_at. Besides the camera it returns the new contents of the
   caller's target vector, which the C code overwrites with target - pos.
   */
  function LookAt(c: Cam, target: Vec3, aim: Aim): (r: Aimed)
    ensures Normalized(r.cam)
    ensures SameExceptAngles(c, r.cam)
    ensures Add3(r.target, c.pos) == target
    ensures SameAngle(r.cam.horizAngle, aim(r.target).horiz)
    ensures r.cam.vertAngle == ClampPitch(aim(r.target).vert)
  {
    var offset := Sub3(target, c.pos);
    var raw := aim(offset);
    Aimed(NormAngles(c.(vertAngle := raw.vert, horizAngle := raw.horiz)), offset)
  }

  /**
   The inverse of the orientation matrix as a function of (pitch, yaw), both
   in degrees: cam_get_orientation followed by mat4x4_invert.
   */
  type InverseOrientation = (real, real) -> Mat4

  /**
   The local vector cam_move builds for direction code d: a 1 in the axis of
   the direction's pair and a homogeneous 1 in the last component.
   */
  function LocalAxis(d: int): (r: Vec4)
    ensures r.w == 1.0
    ensures FromOrd(d).None? ==> Xyz(r) == Zero3
    ensures 0.0 <= r.x <= 1.0 && 0.0 <= r.y <= 1.0 && 0.0 <= r.z <= 1.0
    ensures FromOrd(d).Some? ==> r.x + r.y + r.z == 1.0 && r.x * r.y == 0.0 && r.y * r.z == 0.0 && r.x * r.z == 0.0
  {
    Vec4(if d == Ord(Left) || d == Ord(Right) then 1.0 else 0.0,
         if d == Ord(Up) || d == Ord(Down) then 1.0 else 0.0,
         if d == Ord(Forward) || d == Ord(Backward) then 1.0 else 0.0,
         1.0)
  }

  /** The directions whose vector cam_move negates: the camera looks down -Z. */
  predicate Negated(d: int)
  {
    d == Ord(Left) || d == Ord(Down) || d == Ord(Forward)
  }

  /**
   The direction vector of cam_move in world space: the local vector times the
   matrix, then the whole homogeneous vector negated for LEFT, DOWN, FORWARD.
   */
  function WorldDir(m: Mat4, d: int): (r: Vec4)
    ensures FromOrd(d).None? ==> r == m.c3
    ensures IsLinear(m) && FromOrd(d).None? ==> Xyz(r) == Zero3
  {
    var dir := MulVec4(m, LocalAxis(d));
    if Negated(d) then Neg4(dir) else dir
  }

  /** The homogeneous displacement: the direction vector times the distance. */
  function Displacement(m: Mat4, d: int, distance: real): Vec4
  {
    Scale4(WorldDir(m, d), distance)
  }

  /**
   cam_move: rotate the direction's local vector into world space, scale it by
   the distance and add its first three components to the position. The
   direction is the C `int`, so codes outside the enum are accepted as they
   are by the source.
   */
  function Move(c: Cam, d: int, distance: real, inv: InverseOrientation): (r: Cam)
    ensures SameExceptPos(c, r)
    ensures Normalized(c) ==> Normalized(r)
    ensures Sub3(r.pos, c.pos) == Xyz(Displacement(inv(c.vertAngle, c.horizAngle), d, distance))
  {
    c.(pos := Add3(c.pos, Xyz(Displacement(inv(c.vertAngle, c.horizAngle), d, distance))))
  }

  /** The sign table written out: the unit vector each direction stands for, camera-local. */
  function SignedAxis(d: Direction): Vec3
  {
    match d
    case Left => Vec3(-1.0, 0.0, 0.0)
    case Right => Vec3(1.0, 0.0, 0.0)
    case Up => Vec3(0.0, 1.0, 0.0)
    case Down => Vec3(0.0, -1.0, 0.0)
    case Forward => Vec3(0.0, 0.0, -1.0)
    case Backward => Vec3(0.0, 0.0, 1.0)
  }

  /** Opposite directions have opposite unit vectors. */
  lemma SignedAxisOpposite(d: Direction)
    ensures SignedAxis(Opposite(d)) == Neg3(SignedAxis(d))
  {
    match d
    case Left =>
    case Right =>
    case Up =>
    case Down =>
    case Forward =>
    case Backward =>
  }

  /** The two members of a pair share their local axis and differ in whether it is negated. */
  lemma OppositeSharesAxis(d: Direction)
    ensures LocalAxis(Ord(Opposite(d))) == LocalAxis(Ord(d))
    ensures Negated(Ord(Opposite(d))) <==> !Negated(Ord(d))
  {
    match d
    case Left =>
    case Right =>
    case Up =>
    case Down =>
    case Forward =>
    case Backward =>
  }

  /** Opposite directions have opposite world directions, whatever the matrix. */
  lemma WorldDirOpposite(m: Mat4, d: Direction)
    ensures Xyz(WorldDir(m, Ord(Opposite(d)))) == Neg3(Xyz(WorldDir(m, Ord(d))))
  {
    OppositeSharesAxis(d);
    XyzNeg4(MulVec4(m, LocalAxis(Ord(d))));
  }

  /** The matrix column that belongs to a direction's axis: X, Y or Z. */
  function AxisColumn(m: Mat4, d: Direction): Vec4
  {
    match d
    case Left | Right => m.c0
    case Up | Down => m.c1
    case Forward | Backward => m.c2
  }

  /**
   For a matrix without translation, cam_move's direction vector is the
   column of the direction's axis, negated exactly for LEFT, DOWN and FORWARD.
   */
  lemma WorldDirIsSignedColumn(m: Mat4, d: Direction)
    requires IsLinear(m)
    ensures Xyz(WorldDir(m, Ord(d)))
         == if Negated(Ord(d)) then Neg3(Xyz(AxisColumn(m, d))) else Xyz(AxisColumn(m, d))
  {
    match d
    case Left =>
    case Right =>
    case Up =>
    case Down =>
    case Forward =>
    case Backward =>
  }

  /** The negated directions are exactly those whose signed unit vector points down its axis. */
  lemma NegatedMatchesSignedAxis(d: Direction)
    ensures SignedAxis(d) == if Negated(Ord(d)) then Neg3(Xyz(AxisColumn(Identity, d))) else Xyz(AxisColumn(Identity, d))
  {
    NegatedAxesPointDown(d);
    PlainAxesPointUp(d);
  }

  /** LEFT, DOWN and FORWARD are negated, and their unit vectors are the negated identity columns. */
  lemma NegatedAxesPointDown(d: Direction)
    ensures d == Left || d == Down || d == Forward
            ==> Negated(Ord(d)) && SignedAxis(d) == Neg3(Xyz(AxisColumn(Identity, d)))
  {
  }

  /** RIGHT, UP and BACKWARD are not negated, and their unit vectors are the identity columns. */
  lemma PlainAxesPointUp(d: Direction)
    ensures d == Right || d == Up || d == Backward
            ==> !Negated(Ord(d)) && SignedAxis(d) == Xyz(AxisColumn(Identity, d))
  {
  }

  /** Where cam_move puts the camera: the world direction for the current angles, times the distance. */
  lemma MovePos(c: Cam, d: int, distance: real, inv: InverseOrientation)
    ensures Move(c, d, distance, inv).pos
         == Add3(c.pos, Scale3(Xyz(WorldDir(inv(c.vertAngle, c.horizAngle), d)), distance))
  {
    XyzScale4(WorldDir(inv(c.vertAngle, c.horizAngle), d), distance);
  }

  /**
   With both angles at 0 (where the inverse orientation is the identity), the
   camera moves by exactly the distance along the direction's signed axis:
   LEFT -X, RIGHT +X, UP +Y, DOWN -Y, FORWARD -Z, BACKWARD +Z.
   */
  lemma MoveUnrotated(c: Cam, d: Direction, distance: real, inv: InverseOrientation)
    requires c.horizAngle == 0.0 && c.vertAngle == 0.0
    requires inv(0.0, 0.0) == Identity
    ensures Move(c, Ord(d), distance, inv).pos == Add3(c.pos, Scale3(SignedAxis(d), distance))
  {
    MovePos(c, Ord(d), distance, inv);
    WorldDirIsSignedColumn(Identity, d);
    NegatedMatchesSignedAxis(d);
  }

  /** Worked example: from (0, 0, 4), unrotated, FORWARD by 1 reaches (0, 0, 3). */
  lemma MoveForwardExample(c: Cam, inv: InverseOrientation)
    requires c.pos == Vec3(0.0, 0.0, 4.0)
    requires c.horizAngle == 0.0 && c.vertAngle == 0.0
    requires inv(0.0, 0.0) == Identity
    ensures Move(c, Ord(Forward), 1.0, inv).pos == Vec3(0.0, 0.0, 3.0)
  {
    MoveUnrotated(c, Forward, 1.0, inv);
    OneStepForward(c.pos);
  }

  /** The arithmetic of the example: one unit down -Z from z = 4 is z = 3. */
  lemma OneStepForward(p: Vec3)
    requires p == Vec3(0.0, 0.0, 4.0)
    ensures Add3(p, Scale3(SignedAxis(Forward), 1.0)) == Vec3(0.0, 0.0, 3.0)
  {
    assert SignedAxis(Forward).z * 1.0 == -1.0;
  }

  /** A code outside the enum moves nothing when the matrix has no translation. */
  lemma MoveUnknownCode(c: Cam, d: int, distance: real, inv: InverseOrientation)
    requires FromOrd(d).None?
    requires IsLinear(inv(c.vertAngle, c.horizAngle))
    ensures Move(c, d, distance, inv) == c
  {
    var m := inv(c.vertAngle, c.horizAngle);
    assert LocalAxis(d) == Vec4(0.0, 0.0, 0.0, 1.0);
    assert !Negated(d);
    assert Xyz(WorldDir(m, d)) == Zero3;
    MovePos(c, d, distance, inv);
    assert Scale3(Zero3, distance) == Zero3;
  }

  /** Moving one way and then the opposite way by the same distance restores the camera. */
  lemma MoveThenOpposite(c: Cam, d: Direction, distance: real, inv: InverseOrientation)
    ensures Move(Move(c, Ord(d), distance, inv), Ord(Opposite(d)), distance, inv) == c
  {
    var m := inv(c.vertAngle, c.horizAngle);
    var h := Xyz(WorldDir(m, Ord(d)));
    var c1 := Move(c, Ord(d), distance, inv);
    MovePos(c, Ord(d), distance, inv);
    MovePos(c1, Ord(Opposite(d)), distance, inv);
    WorldDirOpposite(m, d);
    AddScaledCancel(c.pos, h, distance);
  }

  /** Two moves along the same direction add up to one move by the summed distance. */
  lemma MoveAdditive(c: Cam, d: int, s1: real, s2: real, inv: InverseOrientation)
    ensures Move(Move(c, d, s1, inv), d, s2, inv) == Move(c, d, s1 + s2, inv)
  {
    var h := Xyz(WorldDir(inv(c.vertAngle, c.horizAngle), d));
    var c1 := Move(c, d, s1, inv);
    MovePos(c, d, s1, inv);
    MovePos(c1, d, s2, inv);
    MovePos(c, d, s1 + s2, inv);
    AddScaledTwice(c.pos, h, s1, s2);
  }
}
