/**
 * The rotating `Model` component: the input-fusion state shared by the
 * `devicemotion` handler and the per-frame callback, and the permission flow
 * that decides whether the handler is ever attached.
 *
 * The shared state is the material's two uniforms `uMouse` and `uRotation`
 * and the component's `isMotionEnabled` flag. It starts in pointer mode; the
 * first motion event that carries both `acceleration` and `rotationRate`
 * switches it for good into motion mode, where motion samples are pushed in and
 * frames no longer overwrite the uniforms from the pointer.
 */
module Pseudo3D {
  import opened Wrappers
  import opened Linear
  import Shader

  /** Every raw input value is multiplied by 0.01 before it reaches a uniform. */
  const Gain: real := 0.01

  /** `event.acceleration` */
  datatype Acceleration = Acceleration(x: real, y: real)
  /** `event.rotationRate` */
  datatype RotationRate = RotationRate(alpha: real, beta: real, gamma: real)
  /** A `devicemotion` event; either structure may be absent. */
  datatype MotionSample = MotionSample(acceleration: Option<Acceleration>, rotationRate: Option<RotationRate>)

  /** The uniforms `uMouse`, `uRotation` and the `isMotionEnabled` flag. */
  datatype FusionState = FusionState(uMouse: Vec2, uRotation: Vec3, isMotionEnabled: bool)

  /** One thing that can happen to the state: a motion event, or a rendered frame with the pointer at `mouse`. */
  datatype Input = Motion(sample: MotionSample) | Frame(mouse: Vec2)

  /** The material's default uniforms and the flag's initial value. */
  const Initial: FusionState := FusionState(Shader.InitialUMouse, Zero3, false)

  /** The guard `acceleration && rotationRate`. */
  predicate IsUsable(e: MotionSample)
  {
    e.acceleration.Some? && e.rotationRate.Some?
  }

  /** The uniforms a usable motion sample writes, scaled by the gain; the flag is set. */
  function Pushed(e: MotionSample): FusionState
    requires IsUsable(e)
  {
    var acc, rot := e.acceleration.value, e.rotationRate.value;
    FusionState(Vec2(acc.x * Gain, acc.y * Gain),
                Vec3(rot.alpha * Gain, rot.beta * Gain, rot.gamma * Gain),
                true)
  }

  /** What a frame writes in pointer mode: the pointer scaled by the gain, and no rotation. */
  function PointerState(mouse: Vec2): FusionState
  {
    FusionState(Vec2(mouse.x * Gain, mouse.y * Gain), Zero3, false)
  }

  /**
   * `handleDeviceMotion`. A sample missing either structure is dropped
   * entirely; a usable one overwrites both uniforms and enables motion mode.
   * The flag is never cleared.
   */
  function HandleDeviceMotion(s: FusionState, e: MotionSample): (r: FusionState)
    ensures !IsUsable(e) ==> r == s
    ensures IsUsable(e) ==>
              && r.isMotionEnabled
              && r.uMouse == Vec2(e.acceleration.value.x * 0.01, e.acceleration.value.y * 0.01)
              && r.uRotation == Vec3(e.rotationRate.value.alpha * 0.01, e.rotationRate.value.beta * 0.01,
                                     e.rotationRate.value.gamma * 0.01)
    ensures s.isMotionEnabled ==> r.isMotionEnabled
  {
    if e.acceleration.Some? && e.rotationRate.Some? then Pushed(e) else s
  }

  /**
   * The `useFrame` callback. In pointer mode it overwrites `uMouse` from the
   * pointer and resets `uRotation`; in motion mode it changes nothing.
   */
  function FrameTick(s: FusionState, mouse: Vec2): (r: FusionState)
    ensures !s.isMotionEnabled ==>
              r.uMouse == Vec2(mouse.x * 0.01, mouse.y * 0.01) && r.uRotation == Zero3 && !r.isMotionEnabled
    ensures s.isMotionEnabled ==> r == s
  {
    if !s.isMotionEnabled then PointerState(mouse) else s
  }

  function Step(s: FusionState, i: Input): FusionState
  {
    match i
    case Motion(e) => HandleDeviceMotion(s, e)
    case Frame(mouse) => FrameTick(s, mouse)
  }

  /** The state after the inputs of `t`, in order, starting from `s`. */
  function Run(s: FusionState, t: seq<Input>): FusionState
    decreases |t|
  {
    if t == [] then s else Step(Run(s, t[..|t| - 1]), t[|t| - 1])
  }

  /** Some input of `t` is a usable motion sample. */
  predicate HasUsableMotion(t: seq<Input>)
  {
    exists i :: 0 <= i < |t| && t[i].Motion? && IsUsable(t[i].sample)
  }

  /** The last usable motion sample of `t`, if any. */
  function LastUsableMotion(t: seq<Input>): (r: Option<MotionSample>)
    ensures r.Some? ==> IsUsable(r.value)
    ensures r.Some? <==> HasUsableMotion(t)
    decreases |t|
  {
    if t == [] then None
    else if t[|t| - 1].Motion? && IsUsable(t[|t| - 1].sample) then Some(t[|t| - 1].sample)
    else
      var r := LastUsableMotion(t[..|t| - 1]);
      assert HasUsableMotion(t[..|t| - 1]) ==> HasUsableMotion(t) by {
        if HasUsableMotion(t[..|t| - 1]) {
          var i :| 0 <= i < |t| - 1 && t[..|t| - 1][i].Motion? && IsUsable(t[..|t| - 1][i].sample);
          assert t[i] == t[..|t| - 1][i];
        }
      }
      assert HasUsableMotion(t) ==> HasUsableMotion(t[..|t| - 1]) by {
        if HasUsableMotion(t) {
          var i :| 0 <= i < |t| && t[i].Motion? && IsUsable(t[i].sample);
          assert i < |t| - 1 && t[..|t| - 1][i] == t[i];
        }
      }
      r
  }

  /** The pointer position of the last frame of `t`, if any. */
  function LastFrame(t: seq<Input>): Option<Vec2>
    decreases |t|
  {
    if t == [] then None
    else if t[|t| - 1].Frame? then Some(t[|t| - 1].mouse)
    else LastFrame(t[..|t| - 1])
  }

  /**
   * What the state after `t` should be, read off `t` directly: the last usable
   * motion sample decides it if there is one; otherwise, in motion mode the
   * state holds, and in pointer mode the last frame's pointer decides it.
   */
  function Reference(s: FusionState, t: seq<Input>): FusionState
  {
    match LastUsableMotion(t)
    case Some(e) => Pushed(e)
    case None =>
      if s.isMotionEnabled then s
      else match LastFrame(t)
        case Some(mouse) => PointerState(mouse)
        case None => s
  }

  /** Running the machine on any interleaving of events and frames gives the reference state. */
  lemma {:induction false} RunMatchesReference(s: FusionState, t: seq<Input>)
    ensures Run(s, t) == Reference(s, t)
    decreases |t|
  {
    if t != [] {
      var prefix, last := t[..|t| - 1], t[|t| - 1];
      RunMatchesReference(s, prefix);
      match last
      case Motion(e) =>
      case Frame(mouse) =>
        assert Reference(s, prefix).isMotionEnabled <==> LastUsableMotion(prefix).Some? || s.isMotionEnabled;
    }
  }

  /**
   * Motion mode is on after `t` exactly when it was on before or `t` holds a
   * usable motion sample; in particular nothing ever switches it off.
   */
  lemma {:induction false} MotionEnabledExactly(s: FusionState, t: seq<Input>)
    ensures Run(s, t).isMotionEnabled <==> s.isMotionEnabled || HasUsableMotion(t)
  {
    RunMatchesReference(s, t);
  }

  /** Running `t` then `u` is running `t + u`. */
  lemma {:induction false} RunAppend(s: FusionState, t: seq<Input>, u: seq<Input>)
    ensures Run(s, t + u) == Run(Run(s, t), u)
    decreases |u|
  {
    if u != [] {
      assert (t + u)[..|t + u| - 1] == t + u[..|u| - 1];
      assert (t + u)[|t + u| - 1] == u[|u| - 1];
      RunAppend(s, t, u[..|u| - 1]);
    } else {
      assert t + u == t;
    }
  }

  /** Once motion mode is on, no later events or frames turn it off. */
  lemma MotionModeIsPermanent(s: FusionState, t: seq<Input>, u: seq<Input>)
    requires Run(s, t).isMotionEnabled
    ensures Run(s, t + u).isMotionEnabled
  {
    RunAppend(s, t, u);
    MotionEnabledExactly(Run(s, t), u);
  }

  /**
   * Last-value hold: in motion mode, an unusable motion sample and any number
   * of frames leave every uniform as it was.
   */
  lemma {:induction false} MotionModeHoldsValues(s: FusionState, t: seq<Input>)
    requires s.isMotionEnabled
    requires !HasUsableMotion(t)
    ensures Run(s, t) == s
  {
    RunMatchesReference(s, t);
  }

  // ---------------------------------------------------------------------------
  // requestPermission

  /** What a `requestPermission()` call did: resolved with a permission state, or threw / rejected. */
  datatype Response = Resolved(state: string) | Threw

  datatype Sensor = MotionSensor | OrientationSensor

  /**
   * How the flow ended: the listener is attached; a permission was not
   * granted; the event types are missing; or a request threw and the error was
   * caught.
   */
  datatype Outcome = Listening | NotGranted | Unsupported | RequestFailed

  /** The permission requests made, in order, and the outcome. */
  datatype PermissionFlow = PermissionFlow(requests: seq<Sensor>, outcome: Outcome)

  const Granted: string := "granted"

  /**
   * `requestPermission`: when both event types exist, motion permission is
   * requested first and orientation permission only after the first request
   * resolved; the listener is attached exactly when both answers are
   * `'granted'`. A throw anywhere is caught and nothing is attached.
   */
  function RequestPermission(hasMotionEvent: bool, hasOrientationEvent: bool,
                             motion: Response, orientation: Response): (r: PermissionFlow)
    ensures r.outcome == Listening <==>
              hasMotionEvent && hasOrientationEvent && motion == Resolved(Granted) && orientation == Resolved(Granted)
    ensures r.outcome == Unsupported <==> !(hasMotionEvent && hasOrientationEvent)
    ensures r.outcome == RequestFailed <==>
              hasMotionEvent && hasOrientationEvent && (motion.Threw? || orientation.Threw?)
    ensures r.requests == [] <==> !(hasMotionEvent && hasOrientationEvent)
    ensures r.requests != [] ==> r.requests[0] == MotionSensor
    ensures OrientationSensor in r.requests <==> hasMotionEvent && hasOrientationEvent && motion.Resolved?
    ensures |r.requests| <= 2
    ensures |r.requests| == 2 ==> r.requests[1] == OrientationSensor
  {
    if hasMotionEvent && hasOrientationEvent then
      match motion
      case Threw => PermissionFlow([MotionSensor], RequestFailed)
      case Resolved(motionPermission) =>
        match orientation
        case Threw => PermissionFlow([MotionSensor, OrientationSensor], RequestFailed)
        case Resolved(orientationPermission) =>
          var outcome := if motionPermission == Granted && orientationPermission == Granted
                         then Listening else NotGranted;
          PermissionFlow([MotionSensor, OrientationSensor], outcome)
    else
      PermissionFlow([], Unsupported)
  }

  /** The inputs that reach the state: motion events only once the listener is attached. */
  function Delivered(outcome: Outcome, t: seq<Input>): (r: seq<Input>)
    ensures outcome == Listening ==> r == t
    ensures forall i :: 0 <= i < |r| ==> r[i].Frame? || outcome == Listening
    ensures |r| <= |t|
    ensures forall x :: x in r <==> x in t && (x.Frame? || outcome == Listening)
    decreases |t|
  {
    if t == [] then []
    else if t[|t| - 1].Motion? && outcome != Listening then Delivered(outcome, t[..|t| - 1])
    else Delivered(outcome, t[..|t| - 1]) + [t[|t| - 1]]
  }

  /** Without the listener no usable motion sample arrives, and the last frame delivered is the last frame of `t`. */
  lemma {:induction false} DeliveredWithoutListener(outcome: Outcome, t: seq<Input>)
    requires outcome != Listening
    ensures !HasUsableMotion(Delivered(outcome, t))
    ensures LastFrame(Delivered(outcome, t)) == LastFrame(t)
    decreases |t|
  {
    if t != [] {
      var prefix := t[..|t| - 1];
      DeliveredWithoutListener(outcome, prefix);
      var d := Delivered(outcome, prefix);
      if t[|t| - 1].Frame? {
        assert (d + [t[|t| - 1]])[..|d|] == d;
      }
    }
  }

  /**
   * Whenever the listener is not attached (a permission denied, the event
   * types missing, a request failed), the component stays in pointer mode
   * for good: after any interleaving, `uMouse` is the last frame's pointer
   * scaled by the gain (or the default before the first frame) and
   * `uRotation` is zero.
   */
  lemma {:induction false} PointerFallback(hasMotionEvent: bool, hasOrientationEvent: bool,
                        motion: Response, orientation: Response, t: seq<Input>)
    requires RequestPermission(hasMotionEvent, hasOrientationEvent, motion, orientation).outcome != Listening
    ensures var r := Run(Initial, Delivered(RequestPermission(hasMotionEvent, hasOrientationEvent, motion, orientation).outcome, t));
            && !r.isMotionEnabled
            && r.uRotation == Zero3
            && r.uMouse == match LastFrame(t) case Some(m) => Vec2(m.x * 0.01, m.y * 0.01) case None => Zero2
  {
    var outcome := RequestPermission(hasMotionEvent, hasOrientationEvent, motion, orientation).outcome;
    DeliveredWithoutListener(outcome, t);
    RunMatchesReference(Initial, Delivered(outcome, t));
  }

  /**
   * In pointer mode a frame leaves `uRotation` at zero, so the rotating shader
   * draws exactly what the flat one draws with the same `uMouse`.
   */
  lemma PointerFrameIsUnrotated(s: FusionState, mouse: Vec2,
                                image: Vec2 -> Vec4, depthMap: Vec2 -> Vec4, pow: real -> real,
                                sin: real -> real, cos: real -> real, vUv: Vec2)
    requires !s.isMotionEnabled
    requires sin(0.0) == 0.0 && cos(0.0) == 1.0
    ensures var r := FrameTick(s, mouse);
            Shader.RotatingFragColor(image, depthMap, pow, sin, cos, r.uMouse, r.uRotation, vUv)
            == Shader.FlatFragColor(image, depthMap, pow, Vec2(mouse.x * 0.01, mouse.y * 0.01), vUv)
  {
  }

  // ---------------------------------------------------------------------------
  // The component's state, updated in place

  /** The rotating `Model` component: its material's uniforms and its `isMotionEnabled` state. */
  class Model {
    var uMouse: Vec2
    var uRotation: Vec3
    var isMotionEnabled: bool

    function State(): FusionState
      reads this
    {
      FusionState(uMouse, uRotation, isMotionEnabled)
    }

    /** The material's defaults `uMouse = [0, 0]`, `uRotation = [0, 0, 0]`; the flag starts false. */
    constructor ()
      ensures uMouse == Vec2(0.0, 0.0) && uRotation == Vec3(0.0, 0.0, 0.0) && !isMotionEnabled
      ensures State() == Initial
    {
      uMouse := Shader.InitialUMouse;
      uRotation := Zero3;
      isMotionEnabled := false;
    }

    /** `handleDeviceMotion(event)` */
    method OnMotion(e: MotionSample)
      modifies this
      ensures State() == HandleDeviceMotion(old(State()), e)
      ensures !IsUsable(e) ==> unchanged(this)
      ensures IsUsable(e) ==>
                && uMouse == Vec2(e.acceleration.value.x * Gain, e.acceleration.value.y * Gain)
                && uRotation == Vec3(e.rotationRate.value.alpha * Gain, e.rotationRate.value.beta * Gain,
                                     e.rotationRate.value.gamma * Gain)
                && isMotionEnabled
      ensures old(isMotionEnabled) ==> isMotionEnabled
    {
      if e.acceleration.Some? && e.rotationRate.Some? {
        var acc := e.acceleration.value;
        var rot := e.rotationRate.value;
        uMouse := Vec2(acc.x * Gain, acc.y * Gain);
        uRotation := Vec3(rot.alpha * Gain, rot.beta * Gain, rot.gamma * Gain);
        isMotionEnabled := true;
      }
    }

    /** The `useFrame` callback, with the pointer at `mouse`. */
    method Tick(mouse: Vec2)
      modifies this
      ensures State() == FrameTick(old(State()), mouse)
      ensures old(isMotionEnabled) ==> unchanged(this)
      ensures !old(isMotionEnabled) ==>
                uMouse == Vec2(mouse.x * Gain, mouse.y * Gain) && uRotation == Zero3 && !isMotionEnabled
    {
      if !isMotionEnabled {
        uMouse := Vec2(mouse.x * Gain, mouse.y * Gain);
        uRotation := Zero3;
      }
    }
  }
}
