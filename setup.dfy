/**
 * The `Setup` component's `Model` (setup.js): every frame it writes the
 * material's `uMouse` either from device orientation, when the orientation
 * controls are enabled and mounted, or from the pointer. It keeps nothing from
 * one frame to the next.
 */
module Setup {
  import opened Wrappers
  import opened Linear
  import Shader

  /** `sensitivityFactor`, and the further factor applied when writing `uMouse`. */
  const SensitivityFactor: real := 2.0
  const OrientationGain: real := 5.0
  /** The pointer's gain. */
  const PointerGain: real := 0.01

  /** What a frame callback reads from the host's frame state: the pointer and the two tilt angles. */
  datatype FrameState = FrameState(mouse: Vec2, beta: real, gamma: real)

  /** One frame: whether `controls.current` is set at that moment, and the frame state. */
  datatype Tick = Tick(controlsMounted: bool, state: FrameState)

  /** The `controlsEnabled` prop after its default: absent means false. */
  function ControlsEnabledProp(given: Option<bool>): (r: bool)
    ensures given.None? ==> !r
    ensures given.Some? ==> r == given.value
  {
    match given
    case None => false
    case Some(b) => b
  }

  /**
   * The `uMouse` a frame writes: the tilt angles amplified by 2 and then 5
   * when the controls are mounted and enabled, else the pointer times 0.01.
   */
  function SelectUMouse(controlsMounted: bool, controlsEnabled: bool, f: FrameState): (r: Vec2)
    ensures controlsMounted && controlsEnabled ==> r == Vec2(f.beta * 10.0, f.gamma * 10.0)
    ensures !(controlsMounted && controlsEnabled) ==> r == Vec2(f.mouse.x * 0.01, f.mouse.y * 0.01)
  {
    if controlsMounted && controlsEnabled then
      var amplifiedX := f.beta * SensitivityFactor;
      var amplifiedY := f.gamma * SensitivityFactor;
      Vec2(amplifiedX * OrientationGain, amplifiedY * OrientationGain)
    else
      Vec2(f.mouse.x * PointerGain, f.mouse.y * PointerGain)
  }

  /** `<Setup />` with no props renders with the pointer every frame. */
  lemma DefaultUsesPointer(controlsMounted: bool, f: FrameState)
    ensures SelectUMouse(controlsMounted, ControlsEnabledProp(None), f) == Vec2(f.mouse.x * 0.01, f.mouse.y * 0.01)
  {
  }

  /** `uMouse` after the frames of `ticks`, in order, starting from `u`. */
  function RunFrames(u: Vec2, controlsEnabled: bool, ticks: seq<Tick>): Vec2
    decreases |ticks|
  {
    if ticks == [] then u
    else RunFrames(SelectUMouse(ticks[0].controlsMounted, controlsEnabled, ticks[0].state),
                   controlsEnabled, ticks[1..])
  }

  /** Memorylessness: after at least one frame, `uMouse` is what the last frame alone selects. */
  lemma {:induction false} LastFrameDecides(u: Vec2, controlsEnabled: bool, ticks: seq<Tick>)
    requires ticks != []
    ensures var last := ticks[|ticks| - 1];
            RunFrames(u, controlsEnabled, ticks) == SelectUMouse(last.controlsMounted, controlsEnabled, last.state)
    decreases |ticks|
  {
    if |ticks| > 1 {
      LastFrameDecides(SelectUMouse(ticks[0].controlsMounted, controlsEnabled, ticks[0].state),
                       controlsEnabled, ticks[1..]);
    }
  }

  /** Two histories that end in the same frame leave the same `uMouse`, whatever came before. */
  lemma HistoryIrrelevant(u1: Vec2, u2: Vec2, controlsEnabled: bool, h1: seq<Tick>, h2: seq<Tick>, last: Tick)
    ensures RunFrames(u1, controlsEnabled, h1 + [last]) == RunFrames(u2, controlsEnabled, h2 + [last])
  {
    LastFrameDecides(u1, controlsEnabled, h1 + [last]);
    LastFrameDecides(u2, controlsEnabled, h2 + [last]);
  }

  /** The `Model` component: its material's `uMouse` and the controls ref. */
  class Model {
    const controlsEnabled: bool
    /** `controls.current` is set */
    var controlsMounted: bool
    var uMouse: Vec2

    /** The controls are rendered, and so the ref set, only when enabled. */
    predicate Valid()
      reads this
    {
      controlsMounted ==> controlsEnabled
    }

    /** Before the first commit the ref is empty and `uMouse` has the material's default. */
    constructor (controlsEnabled: bool)
      ensures Valid()
      ensures this.controlsEnabled == controlsEnabled && !controlsMounted && uMouse == Shader.InitialUMouse
    {
      this.controlsEnabled := controlsEnabled;
      controlsMounted := false;
      uMouse := Shader.InitialUMouse;
    }

    /** React commits the tree: the controls element, and with it the ref, exists exactly when enabled. */
    method Commit()
      modifies this`controlsMounted
      ensures Valid()
      ensures controlsMounted == controlsEnabled
    {
      controlsMounted := controlsEnabled;
    }

    /**
     * The `useFrame` callback. It writes `uMouse` and nothing else, and the
     * value written does not depend on the value before.
     */
    method Frame(f: FrameState)
      requires Valid()
      modifies this`uMouse
      ensures Valid()
      ensures uMouse == SelectUMouse(controlsMounted, controlsEnabled, f)
      ensures !controlsEnabled ==> uMouse == Vec2(f.mouse.x * PointerGain, f.mouse.y * PointerGain)
      ensures uMouse == if controlsMounted then Vec2(f.beta * 10.0, f.gamma * 10.0)
                        else Vec2(f.mouse.x * 0.01, f.mouse.y * 0.01)
    {
      if controlsMounted && controlsEnabled {
        var amplifiedX := f.beta * SensitivityFactor;
        var amplifiedY := f.gamma * SensitivityFactor;
        uMouse := Vec2(amplifiedX * OrientationGain, amplifiedY * OrientationGain);
      } else {
        uMouse := Vec2(f.mouse.x * PointerGain, f.mouse.y * PointerGain);
      }
    }
  }
}
