/**
 The small slice of vector algebra that the camera needs, over the reals.

 A 4x4 matrix is stored as its four columns, the layout the program's matrix
 library uses, so that multiplying it by a vector is the sum of the columns
 weighted by the vector's components.
 */
module Vectors {

  datatype Vec3 = Vec3(x: real, y: real, z: real)

  datatype Vec4 = Vec4(x: real, y: real, z: real, w: real)

  /** A 4x4 matrix given by its columns c0..c3. */
  datatype Mat4 = Mat4(c0: Vec4, c1: Vec4, c2: Vec4, c3: Vec4)

  const Zero3: Vec3 := Vec3(0.0, 0.0, 0.0)

  const Identity: Mat4 :=
    Mat4(Vec4(1.0, 0.0, 0.0, 0.0), Vec4(0.0, 1.0, 0.0, 0.0),
         Vec4(0.0, 0.0, 1.0, 0.0), Vec4(0.0, 0.0, 0.0, 1.0))

  function Add3(a: Vec3, b: Vec3): (r: Vec3)
    ensures Sub3(r, b) == a
  {
    Vec3(a.x + b.x, a.y + b.y, a.z + b.z)
  }

  function Sub3(a: Vec3, b: Vec3): (r: Vec3)
  {
    Vec3(a.x - b.x, a.y - b.y, a.z - b.z)
  }

  function Scale3(v: Vec3, s: real): Vec3
  {
    Vec3(v.x * s, v.y * s, v.z * s)
  }

  function Neg3(v: Vec3): Vec3
  {
    Vec3(-v.x, -v.y, -v.z)
  }

  /** Scaling by -1, written as negation. */
  function Neg4(v: Vec4): Vec4
  {
    Vec4(-v.x, -v.y, -v.z, -v.w)
  }

  function Scale4(v: Vec4, s: real): Vec4
  {
    Vec4(v.x * s, v.y * s, v.z * s, v.w * s)
  }

  /** The first three components of a homogeneous vector. */
  function Xyz(v: Vec4): Vec3
  {
    Vec3(v.x, v.y, v.z)
  }

  /** Matrix times column vector: the columns weighted by the vector's components. */
  function MulVec4(m: Mat4, v: Vec4): Vec4
  {
    Vec4(m.c0.x * v.x + m.c1.x * v.y + m.c2.x * v.z + m.c3.x * v.w,
         m.c0.y * v.x + m.c1.y * v.y + m.c2.y * v.z + m.c3.y * v.w,
         m.c0.z * v.x + m.c1.z * v.y + m.c2.z * v.z + m.c3.z * v.w,
         m.c0.w * v.x + m.c1.w * v.y + m.c2.w * v.z + m.c3.w * v.w)
  }

  /** A matrix with no translation part: its last column is (0, 0, 0, 1). */
  predicate IsLinear(m: Mat4)
  {
    m.c3 == Vec4(0.0, 0.0, 0.0, 1.0)
  }

  /** Adding a vector scaled by s1 and then by s2 is adding it scaled by s1 + s2. */
  lemma AddScaledTwice(p: Vec3, h: Vec3, s1: real, s2: real)
    ensures Add3(Add3(p, Scale3(h, s1)), Scale3(h, s2)) == Add3(p, Scale3(h, s1 + s2))
  {
    assert h.x * s1 + h.x * s2 == h.x * (s1 + s2);
    assert h.y * s1 + h.y * s2 == h.y * (s1 + s2);
    assert h.z * s1 + h.z * s2 == h.z * (s1 + s2);
  }

  /** Adding a scaled vector and then its negation scaled the same way gets back to the start. */
  lemma AddScaledCancel(p: Vec3, h: Vec3, s: real)
    ensures Add3(Add3(p, Scale3(h, s)), Scale3(Neg3(h), s)) == p
  {
    assert (-h.x) * s == -(h.x * s);
    assert (-h.y) * s == -(h.y * s);
    assert (-h.z) * s == -(h.z * s);
  }

  /** Scaling commutes with dropping the homogeneous component. */
  lemma XyzScale4(v: Vec4, s: real)
    ensures Xyz(Scale4(v, s)) == Scale3(Xyz(v), s)
  {
  }

  /** Negation commutes with dropping the homogeneous component. */
  lemma XyzNeg4(v: Vec4)
    ensures Xyz(Neg4(v)) == Neg3(Xyz(v))
    ensures Neg3(Neg3(Xyz(v))) == Xyz(v)
  {
  }
}
