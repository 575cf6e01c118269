/**
 The program state and per-frame logic of the textured-cube program
 (04/main.c): the key handler that latches a movement direction, the event
 dispatch of the main loop (quit, key, mouse motion, mouse wheel), and the
 per-frame update that spins the cube and performs at most one latched move.

 SDL, OpenGL and the clock are outside the model: an event is a value of
 `Event`, the frame time arrives as a millisecond tick count, and the inverse
 orientation matrix is the parameter `inv` of the camera module.
 */
module App {
  import opened Vectors
  import opened Angles
  import opened Camera

  const SCREEN_WIDTH: int := 640
  const SCREEN_HEIGHT: int := 480
  const DEGREES_PER_SECOND: real := 180.0
  const MOVE_SPEED: real := 5.0
  const MOUSE_SENS: real := 20.0
  const FOV_SENS: real := 1.2

  /** The SDL key codes the program reacts to (SDL uses the ASCII code of the key). */
  const KEY_ESCAPE: int := 27
  const KEY_W: int := 119
  const KEY_S: int := 115
  const KEY_A: int := 97
  const KEY_D: int := 100
  const KEY_Z: int := 122
  const KEY_X: int := 120

  /** The movement keys as a table: W/S forward and back, A/D left and right, Z/X up and down. */
  const KEY_BINDINGS: map<int, Direction> := map[
    KEY_W := Forward, KEY_S := Backward,
    KEY_A := Left, KEY_D := Right,
    KEY_Z := Up, KEY_X := Down]

  /** The "no direction pending" value of the `direction` global. */
  const NO_DIRECTION: int := -1

  /** The globals the main loop works on. */
  datatype App = App(running: bool, direction: int, degreesRotated: real, cam: Cam)

  /** The latched direction is either absent or one of the six enum values. */
  predicate Wellformed(app: App)
  {
    app.direction == NO_DIRECTION || FromOrd(app.direction).Some?
  }

  /** The invariant of the main loop: a well-formed latch and a normalised camera. */
  predicate Inv(app: App)
  {
    Wellformed(app) && Normalized(app.cam)
  }

  /**
   handle_keys: Escape stops the main loop; a movement key latches its
   direction, overwriting any direction still pending; other keys do nothing.
   */
  function HandleKeys(app: App, key: int): (r: App)
    ensures r.cam == app.cam && r.degreesRotated == app.degreesRotated
    ensures key == KEY_ESCAPE ==> !r.running && r.direction == app.direction
    ensures key in KEY_BINDINGS ==> r.running == app.running && r.direction == Ord(KEY_BINDINGS[key])
    ensures key != KEY_ESCAPE && key !in KEY_BINDINGS ==> r == app
    ensures Wellformed(app) ==> Wellformed(r)
  {
    if key == KEY_ESCAPE then app.(running := false)
    else if key == KEY_W then app.(direction := Ord(Forward))
    else if key == KEY_S then app.(direction := Ord(Backward))
    else if key == KEY_A then app.(direction := Ord(Left))
    else if key == KEY_D then app.(direction := Ord(Right))
    else if key == KEY_Z then app.(direction := Ord(Up))
    else if key == KEY_X then app.(direction := Ord(Down))
    else app
  }

  /** Pressing the same key again changes nothing. */
  lemma HandleKeysIdempotent(app: App, key: int)
    ensures HandleKeys(HandleKeys(app, key), key) == HandleKeys(app, key)
  {
  }

  /** Of two movement keys pressed before the next update, the later one wins. */
  lemma LastKeyWins(app: App, k1: int, k2: int)
    requires k1 in KEY_BINDINGS && k2 in KEY_BINDINGS
    ensures HandleKeys(HandleKeys(app, k1), k2) == HandleKeys(app, k2)
  {
  }

  /** The bindings come in opposite pairs: W/S, A/D, Z/X. */
  lemma BindingsArePaired()
    ensures KEY_BINDINGS[KEY_S] == Opposite(KEY_BINDINGS[KEY_W])
    ensures KEY_BINDINGS[KEY_D] == Opposite(KEY_BINDINGS[KEY_A])
    ensures KEY_BINDINGS[KEY_X] == Opposite(KEY_BINDINGS[KEY_Z])
    ensures forall d: Direction :: d in KEY_BINDINGS.Values
  {
    forall d: Direction ensures d in KEY_BINDINGS.Values {
      match d
      case Forward => assert KEY_BINDINGS[KEY_W] == d;
      case Backward => assert KEY_BINDINGS[KEY_S] == d;
      case Left => assert KEY_BINDINGS[KEY_A] == d;
      case Right => assert KEY_BINDINGS[KEY_D] == d;
      case Up => assert KEY_BINDINGS[KEY_Z] == d;
      case Down => assert KEY_BINDINGS[KEY_X] == d;
    }
  }

  /**
   The cube's rotation step of update: add `delta` seconds at 180 degrees per
   second, and take one full turn off once the total passes 360.
   */
  function Spin(degrees: real, delta: real): (r: real)
    ensures SameAngle(r, degrees + delta * DEGREES_PER_SECOND)
    ensures 0.0 <= degrees <= FULL_TURN && 0.0 <= delta * DEGREES_PER_SECOND <= FULL_TURN
            ==> 0.0 <= r <= FULL_TURN
    ensures degrees + delta * DEGREES_PER_SECOND <= FULL_TURN ==> r == degrees + delta * DEGREES_PER_SECOND
    ensures degrees + delta * DEGREES_PER_SECOND - FULL_TURN <= r <= degrees + delta * DEGREES_PER_SECOND
    ensures degrees + delta * DEGREES_PER_SECOND > FULL_TURN ==> r < degrees + delta * DEGREES_PER_SECOND
  {
    var d := degrees + delta * DEGREES_PER_SECOND;
    if d > FULL_TURN then
      assert (d - FULL_TURN) - d == Turns(-1);
      d - FULL_TURN
    else
      assert d - d == Turns(0);
      d
  }

  /**
   update: spin the cube; if a direction is latched, move the camera along it
   by `delta` seconds at MOVE_SPEED units per second and clear the latch.
   */
  function Update(app: App, delta: real, inv: InverseOrientation): (r: App)
    ensures r.running == app.running
    ensures r.degreesRotated == Spin(app.degreesRotated, delta)
    ensures Wellformed(app) ==> r.direction == NO_DIRECTION
    ensures app.direction >= 0 ==> r.direction == NO_DIRECTION
    ensures app.direction < 0 ==> r.cam == app.cam && r.direction == app.direction
    ensures app.direction >= 0 ==>
      SameExceptPos(app.cam, r.cam) &&
      Sub3(r.cam.pos, app.cam.pos)
        == Xyz(Displacement(inv(app.cam.vertAngle, app.cam.horizAngle), app.direction, delta * MOVE_SPEED))
    ensures Inv(app) ==> Inv(r)
  {
    var spun := app.(degreesRotated := Spin(app.degreesRotated, delta));
    if app.direction >= 0 then
      spun.(cam := Move(app.cam, app.direction, delta * MOVE_SPEED, inv), direction := NO_DIRECTION)
    else
      spun
  }

  /** A latched direction is used once: a second update moves nothing. */
  lemma UpdateMovesOnce(app: App, d1: real, d2: real, inv: InverseOrientation)
    requires Wellformed(app)
    ensures Update(Update(app, d1, inv), d2, inv).cam == Update(app, d1, inv).cam
  {
  }

  /**
   With the camera unrotated, pressing W and updating by `delta` seconds moves
   the camera MOVE_SPEED * delta units down the -Z axis.
   */
  lemma ForwardKeyThenUpdate(app: App, delta: real, inv: InverseOrientation)
    requires app.cam.horizAngle == 0.0 && app.cam.vertAngle == 0.0
    requires inv(0.0, 0.0) == Identity
    ensures Update(HandleKeys(app, KEY_W), delta, inv).cam.pos
         == Add3(app.cam.pos, Vec3(0.0, 0.0, -(delta * MOVE_SPEED)))
  {
    var pressed := HandleKeys(app, KEY_W);
    assert pressed.cam == app.cam && pressed.direction == Ord(Forward);
    var dist := delta * MOVE_SPEED;
    assert Update(pressed, delta, inv).cam == Move(app.cam, Ord(Forward), dist, inv);
    MoveUnrotated(app.cam, Forward, dist, inv);
    ForwardStep(dist);
  }

  /** The FORWARD unit vector scaled by s is s units down -Z. */
  lemma ForwardStep(s: real)
    ensures Scale3(SignedAxis(Forward), s) == Vec3(0.0, 0.0, -s)
  {
    assert SignedAxis(Forward).z * s == -s;
  }

  /** What the main loop's event poll can deliver. */
  datatype Event =
    | Quit
    | KeyDown(key: int)
    | MouseMotion(dx: int, dy: int)  // the relative mouse state read on the motion event
    | MouseWheel(y: int)
    | Other

  /**
   The main loop's event dispatch: quit stops the loop; a key goes to
   handle_keys; mouse motion turns the camera by -dx / MOUSE_SENS degrees of
   yaw and dy / MOUSE_SENS degrees of pitch; a non-zero wheel step changes the
   field of view by FOV_SENS * -y.
   */
  function HandleEvent(app: App, e: Event): (r: App)
    ensures Inv(app) ==> Inv(r)
    ensures r.degreesRotated == app.degreesRotated && r.cam.pos == app.cam.pos
    ensures !app.running ==> !r.running
    ensures e.Quit? ==> !r.running
    ensures !e.KeyDown? ==> r.direction == app.direction
    ensures !e.MouseMotion? ==> r.cam.horizAngle == app.cam.horizAngle && r.cam.vertAngle == app.cam.vertAngle
    ensures !e.MouseWheel? ==> r.cam.fov == app.cam.fov
    ensures e.MouseMotion? ==> Normalized(r.cam)
    ensures e.MouseMotion?
            ==> r == app.(cam := OffsetOrientation(app.cam, (-e.dx) as real / MOUSE_SENS, e.dy as real / MOUSE_SENS))
    ensures e.MouseWheel? && e.y != 0 ==> r == app.(cam := app.cam.(fov := app.cam.fov + FOV_SENS * -(e.y as real)))
    ensures e.MouseWheel? && e.y == 0 ==> r == app
    ensures e.KeyDown? ==> r == HandleKeys(app, e.key)
    ensures e.Quit? ==> r == app.(running := false)
    ensures e.Other? ==> r == app
  {
    match e
    case Quit => app.(running := false)
    case KeyDown(key) => HandleKeys(app, key)
    case MouseMotion(dx, dy) =>
      app.(cam := OffsetOrientation(app.cam, (-dx) as real / MOUSE_SENS, dy as real / MOUSE_SENS))
    case MouseWheel(y) =>
      if y != 0 then app.(cam := app.cam.(fov := app.cam.fov + FOV_SENS * -(y as real)))
      else app
    case Other => app
  }

  /** Scrolling one way and then back by the same amount restores the field of view. */
  lemma WheelRoundTrip(app: App, y: int)
    ensures HandleEvent(HandleEvent(app, MouseWheel(y)), MouseWheel(-y)) == app
  {
  }

  /** Scrolling forward (positive y) narrows the field of view, scrolling back widens it. */
  lemma WheelDirection(app: App, y: int)
    ensures y > 0 ==> HandleEvent(app, MouseWheel(y)).cam.fov < app.cam.fov
    ensures y < 0 ==> HandleEvent(app, MouseWheel(y)).cam.fov > app.cam.fov
  {
  }

  /** A sideways mouse motion and the same motion back restore the yaw of a normalised camera. */
  lemma MouseYawRoundTrip(app: App, dx: int)
    requires Normalized(app.cam)
    ensures HandleEvent(HandleEvent(app, MouseMotion(dx, 0)), MouseMotion(-dx, 0)).cam.horizAngle
         == app.cam.horizAngle
  {
    var a := (-dx) as real / MOUSE_SENS;
    var b := (-(-dx)) as real / MOUSE_SENS;
    assert a + b == 0.0 && 0 as real / MOUSE_SENS == 0.0;
    var first := HandleEvent(app, MouseMotion(dx, 0));
    assert first.cam == OffsetOrientation(app.cam, a, 0.0);
    assert HandleEvent(first, MouseMotion(-dx, 0)).cam == OffsetOrientation(first.cam, b, 0.0);
    OffsetYawComposes(app.cam, a, b);
    assert OffsetOrientation(app.cam, a + b, 0.0).horizAngle == NormYaw(app.cam.horizAngle) by {
      assert app.cam.horizAngle + (a + b) == app.cam.horizAngle;
    }
    NormYawFixesInRange(app.cam.horizAngle);
  }

  /** All events of one poll, in order. */
  function HandleEvents(app: App, events: seq<Event>): (r: App)
    ensures (forall i | 0 <= i < |events| :: !events[i].KeyDown?) ==> r.direction == app.direction
    ensures (forall i | 0 <= i < |events| :: !events[i].MouseWheel?) ==> r.cam.fov == app.cam.fov
    decreases |events|
  {
    if |events| == 0 then app else HandleEvents(HandleEvent(app, events[0]), events[1..])
  }

  /**
   Events never move the camera or spin the cube, keep the loop invariant,
   and once a quit or Escape has stopped the loop nothing restarts it.
   */
  lemma {:induction false} HandleEventsPreserves(app: App, events: seq<Event>)
    ensures Inv(app) ==> Inv(HandleEvents(app, events))
    ensures HandleEvents(app, events).cam.pos == app.cam.pos
    ensures HandleEvents(app, events).degreesRotated == app.degreesRotated
    ensures !app.running ==> !HandleEvents(app, events).running
    ensures Quit in events ==> !HandleEvents(app, events).running
    decreases |events|
  {
    if |events| > 0 {
      HandleEventsPreserves(HandleEvent(app, events[0]), events[1..]);
      assert events == [events[0]] + events[1..];
    }
  }

  /** The frame time: milliseconds since the previous frame, in seconds. */
  function FrameDelta(curTime: int, prevTime: int): (delta: real)
    ensures delta * 1000.0 == (curTime - prevTime) as real
    ensures curTime >= prevTime ==> delta >= 0.0
  {
    (curTime - prevTime) as real / 1000.0
  }

  /** One pass of the main loop: drain the events, then update with the elapsed time. */
  function Frame(app: App, events: seq<Event>, curTime: int, prevTime: int, inv: InverseOrientation): (r: App)
    ensures Inv(app) ==> Inv(r) && r.direction == NO_DIRECTION
    ensures Quit in events ==> !r.running
    ensures !app.running ==> !r.running
  {
    HandleEventsPreserves(app, events);
    Update(HandleEvents(app, events), FrameDelta(curTime, prevTime), inv)
  }

  /** What the platform delivers for one pass: the polled events and the tick count after them. */
  datatype FrameInput = FrameInput(events: seq<Event>, ticks: int)

  /** The main loop: run passes while `running` holds and input remains. */
  function Run(app: App, prevTime: int, frames: seq<FrameInput>, inv: InverseOrientation): (r: App)
    ensures !app.running ==> r == app
    ensures r.running ==> app.running
    decreases |frames|
  {
    if !app.running || |frames| == 0 then app
    else
      var f := frames[0];
      Run(Frame(app, f.events, f.ticks, prevTime, inv), f.ticks, frames[1..], inv)
  }

  /**
   The main loop keeps its invariant across any number of passes, every pass
   leaves no direction pending, and a quit event ends the loop after the pass
   that received it.
   */
  lemma {:induction false} RunPreserves(app: App, prevTime: int, frames: seq<FrameInput>, inv: InverseOrientation)
    requires Inv(app)
    ensures Inv(Run(app, prevTime, frames, inv))
    ensures |frames| > 0 && app.running ==> Run(app, prevTime, frames, inv).direction == NO_DIRECTION
    ensures |frames| > 0 && app.running && Quit in frames[0].events
            ==> Run(app, prevTime, frames, inv) == Frame(app, frames[0].events, frames[0].ticks, prevTime, inv)
    decreases |frames|
  {
    if app.running && |frames| > 0 {
      var f := frames[0];
      var next := Frame(app, f.events, f.ticks, prevTime, inv);
      RunPreserves(next, f.ticks, frames[1..], inv);
    }
  }

  /** The camera as the program declares it, with the aspect ratio as written: 640 / 480 in C `int` arithmetic. */
  function InitialCameraAsWritten(): (c: Cam)
    ensures Normalized(c)
    ensures c.pos == Vec3(0.0, 0.0, 4.0) && c.fov == 50.0
  {
    Cam(Vec3(0.0, 0.0, 4.0), 0.0, 0.0, 50.0, 0.1, 10.0, (SCREEN_WIDTH / SCREEN_HEIGHT) as real)
  }

  /** The integer division truncates: the as-written camera has aspect 1, not the window's 4:3. */
  lemma AspectAsWrittenIsSquare()
    ensures InitialCameraAsWritten().vpAspectRatio == 1.0
    ensures InitialCameraAsWritten().vpAspectRatio * (SCREEN_HEIGHT as real) != SCREEN_WIDTH as real
  {
  }

  /** The camera as evidently intended: the aspect ratio is the window's width over its height. */
  function InitialCamera(): (c: Cam)
    ensures Normalized(c)
    ensures c.vpAspectRatio * (SCREEN_HEIGHT as real) == SCREEN_WIDTH as real
    ensures SameExceptAspect(c, InitialCameraAsWritten())
  {
    Cam(Vec3(0.0, 0.0, 4.0), 0.0, 0.0, 50.0, 0.1, 10.0, SCREEN_WIDTH as real / SCREEN_HEIGHT as real)
  }

  /** `a` and `b` agree on everything except the aspect ratio. */
  predicate SameExceptAspect(a: Cam, b: Cam)
  {
    a.pos == b.pos && a.horizAngle == b.horizAngle && a.vertAngle == b.vertAngle
    && a.fov == b.fov && a.nearPlane == b.nearPlane && a.farPlane == b.farPlane
  }

  /**
   The program's state before the first frame, as the program sets it up:
   running, nothing latched, no rotation yet, and the declared camera with its
   truncated aspect ratio of 1.
   */
  function Initial(): (app: App)
    ensures Inv(app) && app.running && app.direction == NO_DIRECTION && app.degreesRotated == 0.0
    ensures app.cam.pos == Vec3(0.0, 0.0, 4.0) && app.cam.fov == 50.0
    ensures app.cam.vpAspectRatio == 1.0
  {
    App(true, NO_DIRECTION, 0.0, InitialCameraAsWritten())
  }

  /** The start state as evidently intended: the same, with the window's 4:3 aspect ratio. */
  function InitialIntended(): (app: App)
    ensures Inv(app) && app.running && app.direction == NO_DIRECTION && app.degreesRotated == 0.0
    ensures app.cam.vpAspectRatio * (SCREEN_HEIGHT as real) == SCREEN_WIDTH as real
    ensures app == Initial().(cam := app.cam) && SameExceptAspect(app.cam, Initial().cam)
  {
    App(true, NO_DIRECTION, 0.0, InitialCamera())
  }
}
