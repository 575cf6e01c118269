/**
 The angle rules of the camera (cam_norm_angles in 04/camera.c): the yaw is
 wrapped into [0, 360) with C's fmodf, the pitch is clamped to [-85, 85].
 */
module Angles {
  import Macros

  /** Largest pitch, up or down, in degrees. */
  const MAX_VERT_ANGLE: real := 85.0

  /** One full turn, in degrees. */
  const FULL_TURN: real := 360.0

  /** `a` and `b` differ by a whole number of turns. */
  ghost predicate SameAngle(a: real, b: real)
  {
    exists n: int :: a - b == Turns(n)
  }

  /** n whole turns, in degrees. */
  function Turns(n: int): real
  {
    (n as real) * FULL_TURN
  }

  /** C's conversion toward zero of the quotient inside fmod. */
  function Trunc(x: real): (n: int)
    ensures x >= 0.0 ==> 0 <= n && n as real <= x < n as real + 1.0
    ensures x < 0.0 ==> n <= 0 && n as real - 1.0 < x <= n as real
  {
    if x >= 0.0 then x.Floor else -((-x).Floor)
  }

  /**
   C's fmodf(x, 360.0f): the remainder of dividing by a full turn with the
   quotient truncated toward zero, so it has the sign of x and lies strictly
   between -360 and 360.
   */
  function FModTurn(x: real): (r: real)
    ensures x >= 0.0 ==> 0.0 <= r < FULL_TURN
    ensures x < 0.0 ==> -FULL_TURN < r <= 0.0
    ensures SameAngle(x, r)
  {
    var n := Trunc(x / FULL_TURN);
    assert x - (x - Turns(n)) == Turns(n);
    x - Turns(n)
  }

  /** Yaw normalisation (first half of cam_norm_angles): fmodf by 360, then lift negatives. */
  function NormYaw(h: real): (r: real)
    ensures 0.0 <= r < FULL_TURN
    ensures SameAngle(r, h)
  {
    var m := FModTurn(h);
    var n := Trunc(h / FULL_TURN);
    assert h - m == Turns(n);
    if m < 0.0 then
      assert m + FULL_TURN - h == Turns(1 - n);
      m + FULL_TURN
    else
      assert m - h == Turns(-n);
      m
  }

  /** Two angles in [0, 360) that differ by whole turns are equal. */
  lemma SameAngleInRange(a: real, b: real)
    requires 0.0 <= a < FULL_TURN && 0.0 <= b < FULL_TURN
    requires SameAngle(a, b)
    ensures a == b
  {
    var n: int :| a - b == Turns(n);
  }

  lemma SameAngleTrans(a: real, b: real, c: real)
    requires SameAngle(a, b) && SameAngle(b, c)
    ensures SameAngle(a, c)
  {
    var n: int :| a - b == Turns(n);
    var m: int :| b - c == Turns(m);
    assert a - c == Turns(n + m);
  }

  lemma SameAngleSym(a: real, b: real)
    requires SameAngle(a, b)
    ensures SameAngle(b, a)
  {
    var n: int :| a - b == Turns(n);
    assert b - a == Turns(-n);
  }

  /** Adding the same amount to two angles that agree keeps them in agreement. */
  lemma SameAngleShift(a: real, b: real, d: real)
    requires SameAngle(a, b)
    ensures SameAngle(a + d, b + d)
  {
    var n: int :| a - b == Turns(n);
    assert (a + d) - (b + d) == Turns(n);
  }

  /**
   `NormYaw(h)` is the one and only angle in [0, 360) that differs from h by
   whole turns.
   */
  lemma NormYawCharacterised(h: real, y: real)
    ensures (0.0 <= y < FULL_TURN && SameAngle(y, h)) <==> y == NormYaw(h)
  {
    if 0.0 <= y < FULL_TURN && SameAngle(y, h) {
      SameAngleSym(NormYaw(h), h);
      SameAngleTrans(y, h, NormYaw(h));
      SameAngleInRange(y, NormYaw(h));
    }
  }

  /** An angle already in [0, 360) is left alone; hence NormYaw is idempotent. */
  lemma NormYawFixesInRange(h: real)
    ensures 0.0 <= h < FULL_TURN ==> NormYaw(h) == h
    ensures NormYaw(NormYaw(h)) == NormYaw(h)
  {
    if 0.0 <= h < FULL_TURN {
      assert h - h == Turns(0);
      NormYawCharacterised(h, h);
    }
    var y := NormYaw(h);
    assert y - y == Turns(0);
    NormYawCharacterised(y, y);
  }

  /** Normalising between two turns changes nothing: the yaw offsets compose. */
  lemma NormYawAdd(h: real, a: real)
    ensures NormYaw(NormYaw(h) + a) == NormYaw(h + a)
  {
    var y := NormYaw(h);
    SameAngleShift(y, h, a);
    SameAngleTrans(NormYaw(y + a), y + a, h + a);
    NormYawCharacterised(h + a, NormYaw(y + a));
  }

  /** Pitch clamping (second half of cam_norm_angles). */
  function ClampPitch(v: real): (r: real)
    ensures -MAX_VERT_ANGLE <= r <= MAX_VERT_ANGLE
    ensures -MAX_VERT_ANGLE <= v <= MAX_VERT_ANGLE ==> r == v
    ensures r == Macros.Max(-MAX_VERT_ANGLE, Macros.Min(v, MAX_VERT_ANGLE))
  {
    if v > MAX_VERT_ANGLE then MAX_VERT_ANGLE
    else if v < -MAX_VERT_ANGLE then -MAX_VERT_ANGLE
    else v
  }

  /** The clamped pitch is the allowed pitch nearest to the requested one. */
  lemma ClampPitchNearest(v: real, y: real)
    requires -MAX_VERT_ANGLE <= y <= MAX_VERT_ANGLE
    ensures Macros.Abs(ClampPitch(v) - v) <= Macros.Abs(y - v)
  {
  }
}
