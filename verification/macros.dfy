/**
 The arithmetic macros of the camera header (DEGREES, RADIANS, ABS, MIN, MAX,
 SIGN and the PI constant they use), as functions over the reals.
 */
module Macros {

  /** The header's value of pi, as written there (twelve digits). */
  const PI: real := 3.14159265359

  /** DEGREES: the angle r in degrees stands to 180 as the radians stand to pi. */
  function Degrees(radians: real): (r: real)
    ensures r * PI == radians * 180.0
    ensures radians > 0.0 <==> r > 0.0
  {
    radians * 180.0 / PI
  }

  /** RADIANS: the angle r in radians stands to pi as the degrees stand to 180. */
  function Radians(degrees: real): (r: real)
    ensures r * 180.0 == degrees * PI
    ensures degrees > 0.0 <==> r > 0.0
  {
    degrees * PI / 180.0
  }

  function Abs(x: real): (r: real)
    ensures r >= 0.0
    ensures r == x || r == -x
  {
    if x < 0.0 then -x else x
  }

  function Min(a: real, b: real): (r: real)
    ensures r <= a && r <= b
    ensures r == a || r == b
  {
    if a < b then a else b
  }

  function Max(a: real, b: real): (r: real)
    ensures r >= a && r >= b
    ensures r == a || r == b
  {
    if a > b then a else b
  }

  /** In C a comparison yields 0 or 1, so SIGN is (x > 0) - (x < 0). */
  function Sign(x: real): (r: int)
    ensures r == -1 || r == 0 || r == 1
    ensures (r as real) * Abs(x) == x
  {
    (if x > 0.0 then 1 else 0) - (if x < 0.0 then 1 else 0)
  }

  /** Converting to radians and back is the identity (over the reals). */
  lemma DegreesOfRadians(x: real)
    ensures Degrees(Radians(x)) == x
  {
  }

  lemma RadiansOfDegrees(x: real)
    ensures Radians(Degrees(x)) == x
  {
  }

  /** The sign is positive exactly for positive inputs, negative exactly for negative ones. */
  lemma SignAgreesWithOrder(x: real)
    ensures Sign(x) == 1 <==> x > 0.0
    ensures Sign(x) == -1 <==> x < 0.0
    ensures Sign(x) == 0 <==> x == 0.0
  {
  }
}
