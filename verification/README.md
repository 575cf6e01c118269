# Camera, image flip and input latch of modern-opengl (Dafny model)

This project models the small pieces of logic inside the modern-opengl
tutorial programs that are not OpenGL or SDL plumbing.

- **Camera** (04/camera.c, 04/camera.h). The camera is a record with:
  - a position;
  - a yaw (`horiz_angle`) and a pitch (`vert_angle`), in degrees;
  - the projection parameters.

  `cam_norm_angles` wraps the yaw into [0, 360) and clamps the pitch to
  [-85, 85]. `cam_offset_orientation` turns the camera and then normalises it.
  `cam_look_at` aims the camera at a point. `cam_move` moves the camera along
  one of six camera-local directions (`enum direction`). The header's
  arithmetic macros are modelled alongside.
- **Vertical image flip** (`flip_image_vertical`). It appears in 04/main.c at
  3 bytes per pixel and in 02/main.c at 4 bytes per pixel. It reverses the
  order of the rows of a decoded image buffer.
- **Input latch and update** (04/main.c):
  - `handle_keys` latches a movement direction or stops the main loop;
  - the event dispatch turns the camera on mouse motion and changes the field
    of view on the mouse wheel;
  - `update` spins the cube and consumes the latched direction once per frame.

Modules:

| file | module | contents |
|---|---|---|
| wrappers.dfy | Wrappers | `Option` |
| vectors.dfy | Vectors | 3- and 4-vectors, column-major 4x4 matrices, matrix times vector |
| macros.dfy | Macros | PI, DEGREES, RADIANS, ABS, MIN, MAX, SIGN |
| angles.dfy | Angles | C `fmodf` by 360, yaw wrapping, pitch clamping, "same angle up to whole turns" |
| camera.dfy | Camera | `enum direction`, `struct camera`, norm / offset / look-at / move |
| image.dfy | Image | the flip as a method over a byte buffer, against a row-reversal reference |
| app.dfy | App | the globals, `handle_keys`, the event dispatch, `update`, the main loop |

Modelling choices:

- Floats are modelled as reals. `fmodf` is truncating division's remainder: its
  result has the sign of the dividend.
- The orientation matrix comes from a matrix library that is not part of this
  model. Its inverse is a parameter `inv: (pitch, yaw) -> Mat4`.
  - Properties that hold for any matrix are proved for any `inv`: only the
    position changes, moves are additive, and a move followed by the opposite
    move cancels out.
  - Properties that need the real rotation are proved under explicit
    assumptions about `inv`: the unrotated sign table and unknown direction
    codes.
- The trigonometry of `cam_look_at` is a parameter `aim` that gives the raw
  pitch and yaw.
- The image buffer is a `seq<bv8>`. The flip copies rows into a fresh array,
  which is returned; the source copies it back over the input.
- The clock, the event queue and the platform are inputs. A frame is a list of
  events and a tick count.

## Model

| member | source | states |
|---|---|---|
| Macros.Abs | 04/camera.h:9 | ABS is non-negative and is either x or -x |
| Macros.Min | 04/camera.h:10 | MIN is at most both arguments and equals one of them |
| Macros.Max | 04/camera.h:11 | MAX is at least both arguments and equals one of them |
| Macros.Sign | 04/camera.h:12 | SIGN is -1, 0 or 1, and SIGN(x) * ABS(x) == x |
| Macros.SignAgreesWithOrder | 04/camera.h:12 | SIGN is 1 exactly for positive, -1 exactly for negative, 0 exactly for zero inputs |
| Macros.Degrees | 04/camera.h:7 | DEGREES scales radians to degrees: the result times pi is the input times 180, and it keeps the input's sign |
| Macros.Radians | 04/camera.h:8 | RADIANS scales degrees to radians: the result times 180 is the input times pi, and it keeps the input's sign |
| Macros.DegreesOfRadians | 04/camera.h:6-8 | DEGREES(RADIANS(x)) == x over the reals |
| Macros.RadiansOfDegrees | 04/camera.h:6-8 | RADIANS(DEGREES(x)) == x over the reals |
| Angles.FModTurn | 04/camera.c:105 | fmodf(x, 360) has the sign of x, magnitude below 360, and differs from x by whole turns |
| Angles.NormYaw | 04/camera.c:105-108 | the wrapped yaw lies in [0, 360) and differs from the input by a whole number of turns |
| Angles.NormYawCharacterised | 04/camera.c:105-108 | y is the wrapped yaw of h if and only if y is in [0, 360) and differs from h by whole turns |
| Angles.NormYawFixesInRange | 04/camera.c:105-108 | a yaw already in [0, 360) is kept; wrapping twice equals wrapping once |
| Angles.NormYawAdd | 04/camera.c:105-108 | wrapping before adding a delta does not change the wrapped result |
| Angles.ClampPitch | 04/camera.c:110-113 | the pitch ends in [-85, 85], in-range values are untouched, and the result is MAX(-85, MIN(v, 85)) |
| Angles.ClampPitchNearest | 04/camera.c:110-113 | the clamped pitch is the nearest value in [-85, 85] to the input |
| Camera.Ord | 04/camera.h:14 | every direction is numbered within 0..5 |
| Camera.FromOrd | 04/camera.h:14 | an integer names a direction exactly when it is in 0..5, and then the direction's number is that integer |
| Camera.OrdInjective | 04/camera.h:14 | the six enum values are pairwise distinct |
| Camera.NoDirectionIsSentinel | 04/camera.h:14 | no direction equals -1, the value 04/main.c uses for "no direction" |
| Camera.Opposite | 04/camera.h:14 | the paired direction differs from the direction |
| Camera.OppositeInvolutive | 04/camera.h:14 | the pair of the pair is the direction itself |
| Camera.NormAngles | 04/camera.c:103-114 | afterwards yaw is in [0, 360) and pitch in [-85, 85]; yaw differs by whole turns; pitch is clamped (kept when in range, 85 above, -85 below); all other fields are unchanged |
| Camera.NormAnglesFixesNormalized | 04/camera.c:103-114 | a camera whose angles are already in range is unchanged |
| Camera.NormAnglesIdempotent | 04/camera.c:103-114 | normalising twice equals normalising once |
| Camera.OffsetOrientation | 04/camera.c:19-24 | the first delta goes to the yaw and the second to the pitch, then the angles are normalised; position, fov, planes and aspect are unchanged |
| Camera.OffsetYawComposes | 04/camera.c:19-24 | two yaw offsets land where one offset by their sum lands |
| Camera.OffsetExamples | 04/camera.c:19-24 | turning by 370 from yaw 0 gives yaw 10; tilting by 200 from pitch 0 stops at 85 |
| Camera.LookAt | 04/camera.c:26-36 | angles end normalised; only the angles change; the caller's vector becomes target - pos; the yaw is the raw yaw up to whole turns and the pitch is the clamped raw pitch |
| Camera.Move | 04/camera.c:38-68 | only the position changes; the position moves by the first three components of the rotated, sign-adjusted, scaled local vector |
| Camera.MovePos | 04/camera.c:52-67 | the new position is the old one plus the world direction scaled by the distance |
| Camera.SignedAxisOpposite | 04/camera.c:52-59 | opposite directions have opposite unit vectors |
| Camera.OppositeSharesAxis | 04/camera.c:52-59 | the two directions of a pair build the same local vector, and exactly one of them is negated |
| Camera.LocalAxis | 04/camera.c:52-56 | the local vector has homogeneous 1; for an enum direction it is a unit vector along exactly one axis; for any other code its x, y and z are zero |
| Camera.WorldDir | 04/camera.c:52-59 | for a code outside the enum the world direction is the matrix's translation column, so with no translation the move is zero |
| Camera.WorldDirOpposite | 04/camera.c:52-59 | for any matrix, opposite directions give opposite world directions |
| Camera.WorldDirIsSignedColumn | 04/camera.c:52-59 | for a matrix without translation, the world direction is the axis column, negated exactly for LEFT, DOWN, FORWARD |
| Camera.NegatedMatchesSignedAxis | 04/camera.c:52-59 | the negated directions are exactly those whose unit vector points down its axis |
| Camera.MoveUnrotated | 04/camera.c:38-68 | with both angles 0 and an identity inverse, the camera moves by the distance along LEFT -X, RIGHT +X, UP +Y, DOWN -Y, FORWARD -Z, BACKWARD +Z |
| Camera.MoveForwardExample | 04/camera.c:38-68 | moving FORWARD by 1 from (0, 0, 4) unrotated reaches (0, 0, 3) |
| Camera.MoveUnknownCode | 04/camera.c:52-59 | a code outside 0..5 leaves the camera unchanged when the matrix has no translation |
| Camera.MoveThenOpposite | 04/camera.c:52-67 | a move followed by the opposite move by the same distance restores the camera |
| Camera.MoveAdditive | 04/camera.c:52-67 | two moves along one direction equal one move by the summed distance |
| Vectors.Add3 | 04/camera.c:65-67 | adding a vector is undone by subtracting it |
| Vectors.AddScaledTwice | 04/camera.c:62-67 | adding h*s1 and then h*s2 equals adding h*(s1+s2) |
| Vectors.AddScaledCancel | 04/camera.c:62-67 | adding h*s and then (-h)*s returns to the start |
| Vectors.XyzScale4 | 04/camera.c:62-67 | scaling commutes with dropping the fourth component |
| Vectors.XyzNeg4 | 04/camera.c:58-59 | negation commutes with dropping the fourth component and is an involution |
| Image.SplitRows | 04/main.c:302-303 | cutting a buffer of height*stride bytes gives `height` rows of `stride` bytes that join back to the buffer |
| Image.Reverse | 04/main.c:307-310 | reversal keeps the length |
| Image.ReverseReverse | 04/main.c:307-310 | reversing twice gives the list back |
| Image.ReverseSnoc | 04/main.c:307-310 | reversing a list with one more element puts that element in front |
| Image.ConcatCons | 04/main.c:309 | joining a row in front of rows puts its bytes in front |
| Image.ConcatLength | 04/main.c:302-303 | joined rows of `stride` bytes have rows times stride bytes |
| Image.ConcatIndex | 04/main.c:309 | byte c of row r sits at offset r*stride + c of the joined buffer |
| Image.ConcatSplit | 04/main.c:309 | joining splits at any row boundary |
| Image.SplitConcat | 04/main.c:302-303 | cutting joined rows gives the rows back |
| Image.RowIsSlice | 04/main.c:309 | row i is the `stride` bytes at i*stride |
| Image.FlippedRows | 04/main.c:307-310 | the flipped buffer keeps the length, and its rows are the input's rows reversed |
| Image.FlippedIndex | 04/main.c:307-310 | byte k of row i lands at byte k of row height-1-i |
| Image.FlipInvolution | 04/main.c:300-314 | flipping twice restores the buffer |
| Image.FlipSmallIsIdentity | 04/main.c:307-310 | with at most one row, or zero-width rows, the flip changes nothing |
| Image.FlipKeepsMiddleRow | 04/main.c:307-310 | with an odd height the middle row stays in place |
| Image.FlipImageVertical | 04/main.c:300-314 | for a w*h*bpp buffer that fits in 32 bits, the result has the same length and equals the row-reversal reference |
| Image.FlipRows | 04/main.c:307-312 | the copy loop leaves exactly the row-reversed buffer in the new array |
| Image.CopyRowInto | 04/main.c:309 | after copying one row of `stride` bytes to `dst`, the buffer from `dst` on is that row followed by what was there after it, and the bytes before `dst` are untouched |
| Image.CopyRow | 04/main.c:309 | copying a row in front of the already-placed suffix extends that suffix by the row |
| Image.NextRow | 04/main.c:309 | the input from row i's offset on starts with row i, followed by the rows after it |
| Image.ExtendReversed | 04/main.c:307-310 | the reversed prefix grows by putting the next row in front |
| Image.FlipRgb | 04/main.c:300-314 | for RGB, output byte (height-1-i)*stride + k equals input byte i*stride + k for every row i and byte k |
| Image.FlipRgba | 02/main.c:196-210 | for RGBA, the length is kept and output row height-1-i is input row i, byte for byte |
| App.HandleKeys | 04/main.c:147-163 | Escape clears `running` and keeps the direction; w/s/a/d/z/x latch the direction of the key binding table; any other key changes nothing; the camera and rotation are untouched |
| App.HandleKeysIdempotent | 04/main.c:147-163 | pressing the same key twice is the same as once |
| App.LastKeyWins | 04/main.c:151-162 | of two movement keys before an update, the later one is latched |
| App.BindingsArePaired | 04/main.c:151-162 | the bindings come in opposite pairs and cover all six directions |
| App.Spin | 04/main.c:318-320 | the rotation advances by delta*180 up to whole turns; it loses at most one full turn, and loses one exactly when the sum passes 360; it stays in [0, 360] when the old value and the step are in [0, 360] |
| App.Update | 04/main.c:316-326 | the camera moves by delta*MOVE_SPEED along the latched direction exactly when it is >= 0, then the latch is -1 for every such code, including codes outside the enum; otherwise the camera and the latch are unchanged; the rotation is the spun value; the loop invariant is kept |
| App.UpdateMovesOnce | 04/main.c:322-325 | a second update does not move the camera again |
| App.ForwardKeyThenUpdate | 04/main.c:151-152 | pressing W and updating unrotated moves the camera by delta*MOVE_SPEED down -Z |
| App.HandleEvent | 04/main.c:58-76 | quit clears `running` and changes nothing else; a key event is exactly `handle_keys` on its key; any other event changes nothing; mouse motion turns the camera by -dx/20 degrees of yaw and dy/20 of pitch and changes nothing else; a non-zero wheel step adds 1.2 * -y to fov and changes nothing else, a zero step changes nothing; only the wheel changes fov; no event moves the camera or restarts the loop |
| App.WheelRoundTrip | 04/main.c:71-74 | a wheel step and the opposite step restore the state |
| App.WheelDirection | 04/main.c:71-74 | a positive wheel step narrows the field of view and a negative one widens it; there is no clamp |
| App.MouseYawRoundTrip | 04/main.c:66-70 | a sideways motion and the reverse motion restore the yaw |
| App.HandleEvents | 04/main.c:58-77 | a poll without key events keeps the latched direction, and one without wheel events keeps the field of view |
| App.HandleEventsPreserves | 04/main.c:58-77 | draining the events keeps the invariant, the position and the rotation, and leaves the loop stopped after a quit |
| App.FrameDelta | 04/main.c:78-79 | the frame time is the tick difference in seconds, non-negative when the clock does not go back |
| App.Frame | 04/main.c:57-82 | a pass keeps the invariant and leaves no direction latched; a quit stops the loop |
| App.Run | 04/main.c:57-82 | a stopped loop runs no pass and changes nothing, and the loop is still running at the end only if it was at the start |
| App.RunPreserves | 04/main.c:57-82 | the main loop keeps the invariant over any number of passes, and a pass that sees a quit is the last |
| App.InitialCameraAsWritten | 04/main.c:34-42 | the declared camera starts at (0, 0, 4) with fov 50 and normalised angles |
| App.AspectAsWrittenIsSquare | 04/main.c:38 | as written, the aspect ratio is 1, not 640/480 |
| App.InitialCamera | 04/main.c:34-42 | the corrected camera's aspect ratio times the screen height is the screen width; it differs from the declared camera only in that field |
| App.Initial | 04/main.c:27-42 | the program starts running, with no direction latched, no rotation, the loop invariant holding, and the declared camera at (0, 0, 4) with fov 50 and aspect ratio 1 |
| App.InitialIntended | 04/main.c:27-42 | the corrected start state is the declared one except for the camera's aspect ratio, which is the window's 640/480 |

## Left out

- The matrix library is not part of this model: `cam_get_orientation`, `mat4x4_invert`, `cam_get_view`, `cam_get_projection` and `cam_get_matrix`. The inverse orientation is the parameter `inv`.
- Camera.LookAt: the trigonometry (`vec3_norm`, `asinf`, `atan2f`) is the parameter `aim`. So is the source applying RADIANS to a value that is already in radians at 04/camera.c:33-34. Only the post-state is modelled.
- Float rounding is not modelled. One example is `fmodf` of a tiny negative yaw plus 360 rounding to exactly 360.0f. Over the reals the yaw is always below 360, and the wheel round trip is exact.
- Angles.FModTurn: only the divisor 360 is modelled, the only one the source uses.
- Image.FlipImageVertical: the `unsigned int` overflow of width*height*bpp is a precondition (the product must stay below 2^32). A failed `malloc` and a failed PNG decode before the call (04/main.c:278-282) are not modelled.
- Image.FlipImageVertical: the result is returned as a new sequence. The source copies the new buffer back over the input and frees it (04/main.c:312-313).
- The debug printers (04/camera.c:116-136) are not modelled.
- SDL and OpenGL plumbing is not modelled: `init`, `init_gl`, `render`, `load_cube` and `load_texture`.
- App.HandleEvent: the mouse motion reads `SDL_GetRelativeMouseState`; the event carries the values it returns. C's `-x` and `-event.wheel.y` overflow for the most negative `int` is not modelled.
- Camera.LookAt: aiming at the camera's own position makes `vec3_norm` divide the zero vector by its zero length in C, and the resulting NaN angles pass through `cam_norm_angles`. The parameter `aim` returns some angle pair for every vector, so the model does not exhibit the NaN.
- App.FrameDelta: `SDL_GetTicks` returns a 32-bit unsigned count that the source stores in an `int`, so after about 24.8 days the stored value and the difference wrap. The model's tick counts are unbounded integers.
- Camera.OffsetOrientation: the header declares the parameters as (up, right), but the definition's (right, down) is what runs, and the model follows the definition.

## Findings

| source | as written | input that shows it | evidently intended | confidence | as-written member | corrected member |
|---|---|---|---|---|---|---|
| 04/main.c:38 | `vp_aspect_ratio = SCREEN_WIDTH / SCREEN_HEIGHT` divides two `int` macros, so the ratio truncates to 1 | SCREEN_WIDTH 640, SCREEN_HEIGHT 480: 640 / 480 is 1 in `int` arithmetic, not 1.333 | the window's aspect ratio 640/480, computed in floating point | high, not executed | App.AspectAsWrittenIsSquare | App.InitialCamera |
