# pseudo3dr3f: input fusion and parallax shading, in Dafny

This is a Dafny model of the logic inside a React Three Fiber "pseudo-3D" page, which
draws one still image with simulated depth. The model covers three parts:

- **Input fusion** (`src/app/components/Pseudo3D.js`). The `devicemotion` handler and the
  per-frame callback share three things: the material's uniforms `uMouse` and `uRotation`,
  and the component's `isMotionEnabled` flag. The component starts in pointer mode. The
  first motion event carrying both `acceleration` and `rotationRate` switches it into
  motion mode for good. In motion mode, motion samples are written into the uniforms and
  frames no longer overwrite them from the pointer. A permission flow decides whether the
  handler is ever attached.
- **Per-frame source selection** (`src/app/components/setup.js`). Every frame writes
  `uMouse` from one of two sources: the tilt angles, amplified by 2·5, when the
  orientation controls are enabled and mounted; otherwise the pointer, scaled by 0.01.
- **The fragment shaders** (`Pseudo3D.jsx` and `Pseudo3D.js`). Each pixel is sampled at
  an offset coordinate: `vUv + uMouse * depth.r`. The rotating variant first rotates
  `vUv` about (0.5, 0.5). The sampled colour then goes through `linearTosRGB`.

Layout:

- `wrappers.dfy` holds `Option`.
- `linear.dfy` holds the vectors.
- `shader.dfy` models both fragment shaders.
- `pseudo3d.dfy` models the state machine, the permission decision and the class
  `Pseudo3D.Model`.
- `setup.dfy` models `Setup.Model`.

The state machine appears in two forms:

- A value form: the pure step functions `HandleDeviceMotion` and `FrameTick` over
  `FusionState`.
- The source's imperative form: the class `Pseudo3D.Model`. Its fields are the same
  three variables, and its methods `OnMotion` and `Tick` are specified by the two step
  functions.

Any interleaving of events and frames is a sequence of `Input`s. `Run` applies them in
order. `Reference` reads the expected state straight off the sequence:

- If the sequence contains a usable motion sample, the last such sample decides the state.
- Otherwise, if motion mode was already on, the state holds.
- Otherwise, the last frame's pointer decides the state.

`RunMatchesReference` proves the two equal.

Modelling choices:

- Values are reals, so `x * 0.01` is exact.
- Texture sampling is an abstract function of the coordinate.
- `pow(x, 0.41666)`, `sin` and `cos` are parameters. Note that the source's exponent
  is 0.41666, not exactly 1/2.4.
- Browser I/O is reduced to inputs:
  - whether the two event types exist;
  - what each `requestPermission()` call resolved to, or that it threw.

Notes on what the source does:

- `handleDeviceMotion` checks only that the `acceleration` and `rotationRate` structures
  are present. It does not check their components.
- `Pseudo3D.js` has no orientation adapter and no precedence between orientation and
  motion.
- On a platform whose event types exist but have no `requestPermission`, the call throws.
  The error is caught and the listener is never attached. The source does not treat
  this as "no consent needed, attach anyway".

## Model

| member | source | states |
|---|---|---|
| `Shader.Mix` | src/app/components/Pseudo3D.js:113 | GLSL `mix` with a 0/1 selector returns its first argument for 0 and its second for 1 |
| `Shader.LinearTosRGB` | src/app/components/Pseudo3D.js:112-114 | the `mix`/`lessThanEqual` formulation equals the piecewise transfer curve on each of r, g, b, and alpha passes through |
| `Shader.LinearTosRGBLowChannels` | src/app/components/Pseudo3D.jsx:54-56 | alpha is unchanged and every colour channel ≤ 0.0031308 becomes v·12.92 |
| `Shader.FlatSampleCoord` | src/app/components/Pseudo3D.jsx:60-65 | the sampling coordinate is `vUv` when depth.r = 0 or `uMouse` = 0, and `vUv + uMouse` when depth.r = 1 |
| `Shader.OnlyRedChannelShifts` | src/app/components/Pseudo3D.jsx:61 | depth samples with the same red channel give the same coordinate |
| `Shader.ShiftProportionalToDepth` | src/app/components/Pseudo3D.jsx:63-65 | the difference between two pixels' shifts is `uMouse` times the difference of their depths |
| `Shader.RotateAboutCentre` | src/app/components/Pseudo3D.js:120-125 | the rotation about (0.5, 0.5) fixes the centre and is the identity for s = 0, c = 1 |
| `Shader.RotationKeepsDistance` | src/app/components/Pseudo3D.js:121-125 | when s² + c² = 1 the rotated coordinate is as far from the centre as `vUv` |
| `Shader.RotatingSampleCoord` | src/app/components/Pseudo3D.js:117-126 | with s = 0, c = 1 the coordinate is the flat shader's `vUv + uMouse·depth.r`; with depth 0 or no offset it is the rotated `vUv`; with depth 1 it is rotated `vUv` + `uMouse` |
| `Shader.FlatFragColor` | src/app/components/Pseudo3D.jsx:59-67 | with zero offset or depth 0 the output is `linearTosRGB` of the unshifted colour sample; with depth 1 it is that of the sample at `vUv + uMouse` |
| `Shader.RotatingFragColor` | src/app/components/Pseudo3D.js:116-128 | when sin and cos of `uRotation.z` are 0 and 1 the output equals the flat shader's |
| `Shader.OnlyRollRotates` | src/app/components/Pseudo3D.js:122-123 | only `uRotation.z` affects the output; the alpha/beta-derived components are unused |
| `Shader.ZeroOffsetIsUnshifted` | src/app/components/Pseudo3D.jsx:35 | with the default `uMouse = (0,0)` (and zero rotation) every pixel is `linearTosRGB` of the unshifted sample, whatever the depth map |
| `Shader.SolidRedScenario` | src/app/components/Pseudo3D.jsx:59-67 | solid red over mid-grey depth with offset (0.02, 0) samples at `vUv + (0.01, 0)` and outputs red |
| `Pseudo3D.HandleDeviceMotion` | src/app/components/Pseudo3D.js:34-43 | a sample missing `acceleration` or `rotationRate` changes nothing; a usable one sets `uMouse = (x·0.01, y·0.01)`, `uRotation = (alpha·0.01, beta·0.01, gamma·0.01)` and the flag; the flag is never cleared |
| `Pseudo3D.FrameTick` | src/app/components/Pseudo3D.js:72-77 | in pointer mode a frame sets `uMouse = (mouse.x·0.01, mouse.y·0.01)` and `uRotation = 0`; in motion mode it changes nothing |
| `Pseudo3D.RunMatchesReference` | src/app/components/Pseudo3D.js:34-43 | after any interleaving of events and frames, the state is the one decided by the last usable motion sample, else held (motion mode), else decided by the last frame's pointer |
| `Pseudo3D.MotionEnabledExactly` | src/app/components/Pseudo3D.js:32-41 | `isMotionEnabled` is true after a sequence exactly when it was true before or the sequence holds a usable motion sample |
| `Pseudo3D.MotionModeIsPermanent` | src/app/components/Pseudo3D.js:41 | once `isMotionEnabled` is true, no further events or frames make it false |
| `Pseudo3D.MotionModeHoldsValues` | src/app/components/Pseudo3D.js:36-42 | in motion mode, unusable samples and frames leave the uniforms as they were |
| `Pseudo3D.RequestPermission` | src/app/components/Pseudo3D.js:46-63 | the listener is attached iff both event types exist and both answers are `'granted'`; unsupported iff an event type is missing; failed iff a request threw; motion is asked first and at most once, orientation only after motion resolved |
| `Pseudo3D.Delivered` | src/app/components/Pseudo3D.js:52-53 | with the listener attached every input arrives unchanged; otherwise an input arrives exactly when it is a frame of the run (motion events are dropped, nothing is added) |
| `Pseudo3D.DeliveredWithoutListener` | src/app/components/Pseudo3D.js:52-59 | without the listener no usable sample arrives and the last frame is unchanged |
| `Pseudo3D.PointerFallback` | src/app/components/Pseudo3D.js:49-59 | whenever the listener is not attached, the state stays in pointer mode for any interleaving: `uRotation = 0` and `uMouse` is the last frame's pointer times 0.01 (or the default) |
| `Pseudo3D.PointerFrameIsUnrotated` | src/app/components/Pseudo3D.js:72-77 | after a pointer-mode frame the rotating shader draws what the flat shader draws with the pointer offset |
| `Pseudo3D.Model.constructor` | src/app/components/Pseudo3D.js:92 | the uniforms start at `uMouse = (0,0)`, `uRotation = (0,0,0)` and `isMotionEnabled` false |
| `Pseudo3D.Model.OnMotion` | src/app/components/Pseudo3D.js:34-43 | the fields change as `HandleDeviceMotion` says; an unusable sample leaves the object unchanged; the flag is never cleared |
| `Pseudo3D.Model.Tick` | src/app/components/Pseudo3D.js:72-77 | the fields change as `FrameTick` says; in motion mode the object is unchanged |
| `Setup.ControlsEnabledProp` | src/app/components/setup.js:6 | the `controlsEnabled` prop defaults to false |
| `Setup.SelectUMouse` | src/app/components/setup.js:21-37 | with controls mounted and enabled `uMouse = (beta·10, gamma·10)`, otherwise `(mouse.x·0.01, mouse.y·0.01)` |
| `Setup.DefaultUsesPointer` | src/app/components/setup.js:6 | with the default prop every frame takes the pointer path |
| `Setup.LastFrameDecides` | src/app/components/setup.js:21-37 | after any non-empty run of frames, `uMouse` is whatever the last frame alone selects |
| `Setup.HistoryIrrelevant` | src/app/components/setup.js:21-37 | two histories ending in the same frame leave the same `uMouse` |
| `Setup.Model.constructor` | src/app/components/Pseudo3D.jsx:35 | the controls ref starts empty and `uMouse` starts at the material default (0,0) |
| `Setup.Model.Commit` | src/app/components/setup.js:42 | the controls ref is set exactly when `controlsEnabled` |
| `Setup.Model.Frame` | src/app/components/setup.js:21-37 | only `uMouse` is written, to the value `SelectUMouse` gives for this frame alone; since the ref is set only when `controlsEnabled`, a set ref means the tilt path and an empty one the pointer path |

## Left out

- React component trees, JSX layout, `Canvas`, `Plane` and `useThree` viewport scaling, and the page component. The `permissionGranted` state setter in `Pseudo3D.jsx` is left out too. All of this is UI plumbing.
- `./accelerometer`, imported at `Pseudo3D.jsx:4` and rendered as `Accelerometer`, is not modelled.
- Texture loading and `texture2D` itself: sampling is an abstract function of the coordinate. No clamping or wrapping of out-of-range coordinates is modelled.
- The vertex shader's matrix transforms, GPU `mediump` precision, and all floating point. Values are reals. `NaN` and the undefined result of `pow` on negative inputs are not modelled; with reals, a branch `mix` does not select contributes exactly 0.
- `pow(…, 0.41666)`, `sin` and `cos` are passed in as functions; their values are not computed.
- The asynchronous `requestPermission` calls, `console.error` logging, `addEventListener`, `removeEventListener` and cleanup on unmount. These are browser I/O. Only the decision and the order of requests are modelled, in `Pseudo3D.RequestPermission`.
- `DeviceOrientationControls.update()`: a third-party library call.
- `Setup.SelectUMouse`: `state.beta` and `state.gamma` are taken as given reals. Whether the host's frame state carries them is outside the visible code.
- `Pseudo3D.HandleDeviceMotion`: the components of `acceleration` and `rotationRate` are reals, never `null`. In JavaScript a `null` component inside a present structure would be coerced to 0.
- `Pseudo3D.Model.OnMotion`: `setIsMotionEnabled(true)` sets the flag at once. In React the new value reaches the frame callback only after the next render, so a frame in between may still write the pointer.
- The order of event-queue callbacks against render frames is concurrency. Any order is modelled instead, as an arbitrary sequence of `Input`s.
