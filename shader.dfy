/**
 * The fragment shaders of the two `Pseudo3DMaterial` variants: the flat one
 * (Pseudo3D.jsx), which samples at `vUv + uMouse * depth.r`, and the rotating
 * one (Pseudo3D.js), which first rotates `vUv` about the image centre by the
 * angle `uRotation.z`; both end with `linearTosRGB`.
 *
 * Texture lookups are abstract functions of the coordinate (`image`,
 * `depthMap`). The transcendental functions are parameters: `pow` stands for
 * `x -> pow(x, 0.41666)`, `sin` and `cos` for the trigonometric functions,
 * and `s`, `c` for their values at `uRotation.z`.
 */
module Shader {
  import opened Linear

  /** `linearTosRGB`: at or below this value a channel takes the linear branch. */
  const Threshold: real := 0.0031308
  /** Slope of the linear branch. */
  const LinearSlope: real := 12.92
  /** Scale and offset of the curved branch: `pow(v, 0.41666) * 1.055 - 0.055`. */
  const CurveScale: real := 1.055
  const CurveOffset: real := 0.055

  /** The rotation centre, in texture coordinates. */
  const Centre: real := 0.5

  /** The `uMouse` both materials start with. */
  const InitialUMouse: Vec2 := Vec2(0.0, 0.0)

  // ---------------------------------------------------------------------------
  // linearTosRGB

  /** GLSL `mix(a, b, t) = a * (1 - t) + b * t`, used here with `t` in {0, 1}. */
  function Mix(a: real, b: real, t: real): (r: real)
    ensures t == 0.0 ==> r == a
    ensures t == 1.0 ==> r == b
  {
    a * (1.0 - t) + b * t
  }

  /** `vec3(lessThanEqual(v, vec3(edge)))`, one component: true becomes 1.0, false 0.0. */
  function AtMost(v: real, edge: real): real
  {
    if v <= edge then 1.0 else 0.0
  }

  function Mix3(a: Vec3, b: Vec3, t: Vec3): Vec3
  {
    Vec3(Mix(a.x, b.x, t.x), Mix(a.y, b.y, t.y), Mix(a.z, b.z, t.z))
  }

  function AtMost3(v: Vec3, edge: real): Vec3
  {
    Vec3(AtMost(v.x, edge), AtMost(v.y, edge), AtMost(v.z, edge))
  }

  function Pow3(pow: real -> real, v: Vec3): Vec3
  {
    Vec3(pow(v.x), pow(v.y), pow(v.z))
  }

  /** `value.rgb` */
  function Rgb(v: Vec4): Vec3 { Vec3(v.r, v.g, v.b) }

  /**
   * The piecewise transfer curve, one channel at a time, as an independent
   * reference for `LinearTosRGB`.
   */
  function TransferCurve(pow: real -> real, v: real): real
  {
    if v <= Threshold then v * LinearSlope else pow(v) * CurveScale - CurveOffset
  }

  /**
   * `linearTosRGB`: both branches are computed for all three colour channels
   * and `mix` selects one per channel; alpha is carried over.
   */
  function LinearTosRGB(pow: real -> real, value: Vec4): (r: Vec4)
    ensures r.a == value.a
    ensures r == Vec4(TransferCurve(pow, value.r), TransferCurve(pow, value.g),
                      TransferCurve(pow, value.b), value.a)
  {
    var rgb := Rgb(value);
    var curved := Shift3(Scale3(Pow3(pow, rgb), CurveScale), -CurveOffset);
    var linear := Scale3(rgb, LinearSlope);
    var mixed := Mix3(curved, linear, AtMost3(rgb, Threshold));
    Vec4(mixed.x, mixed.y, mixed.z, value.a)
  }

  /** Every colour channel at or below the threshold is multiplied by 12.92; alpha is untouched. */
  lemma LinearTosRGBLowChannels(pow: real -> real, value: Vec4)
    ensures LinearTosRGB(pow, value).a == value.a
    ensures value.r <= Threshold ==> LinearTosRGB(pow, value).r == value.r * 12.92
    ensures value.g <= Threshold ==> LinearTosRGB(pow, value).g == value.g * 12.92
    ensures value.b <= Threshold ==> LinearTosRGB(pow, value).b == value.b * 12.92
  {
  }

  // ---------------------------------------------------------------------------
  // Sampling coordinates

  /** `parallax = uMouse * depthDistortion.r` */
  function Parallax(uMouse: Vec2, depthSample: Vec4): Vec2
  {
    Scale2(uMouse, depthSample.r)
  }

  /**
   * The flat shader's sampling coordinate: depth 0 leaves the pixel where it
   * is, depth 1 moves it by the whole offset, and a zero offset moves nothing.
   */
  function FlatSampleCoord(vUv: Vec2, uMouse: Vec2, depthSample: Vec4): (r: Vec2)
    ensures depthSample.r == 0.0 ==> r == vUv
    ensures depthSample.r == 1.0 ==> r == Add2(vUv, uMouse)
    ensures uMouse == Zero2 ==> r == vUv
  {
    Add2(vUv, Parallax(uMouse, depthSample))
  }

  /** Only the red channel of the depth sample affects the coordinate. */
  lemma OnlyRedChannelShifts(vUv: Vec2, uMouse: Vec2, d1: Vec4, d2: Vec4)
    requires d1.r == d2.r
    ensures FlatSampleCoord(vUv, uMouse, d1) == FlatSampleCoord(vUv, uMouse, d2)
  {
  }

  /** The shift grows in proportion to depth: per unit of depth it is `uMouse`. */
  lemma ShiftProportionalToDepth(vUv: Vec2, uMouse: Vec2, d1: Vec4, d2: Vec4)
    ensures var p, q := FlatSampleCoord(vUv, uMouse, d1), FlatSampleCoord(vUv, uMouse, d2);
            q.x - p.x == uMouse.x * (d2.r - d1.r) && q.y - p.y == uMouse.y * (d2.r - d1.r)
  {
  }

  /**
   * `rotatedUv`: `vUv` moved to the centre, rotated with sine `s` and cosine
   * `c`, and moved back. The centre stays put, and `s = 0, c = 1` is the identity.
   */
  function RotateAboutCentre(vUv: Vec2, s: real, c: real): (r: Vec2)
    ensures vUv == Vec2(Centre, Centre) ==> r == vUv
    ensures s == 0.0 && c == 1.0 ==> r == vUv
  {
    var p := Shift2(vUv, -Centre);
    var q := Vec2(p.x * c - p.y * s, p.x * s + p.y * c);
    Shift2(q, Centre)
  }

  /** With `s` and `c` a sine and cosine of one angle, the rotation keeps the distance to the centre. */
  lemma RotationKeepsDistance(vUv: Vec2, s: real, c: real)
    requires s * s + c * c == 1.0
    ensures DistSq(RotateAboutCentre(vUv, s, c), Vec2(Centre, Centre)) == DistSq(vUv, Vec2(Centre, Centre))
  {
  }

  /**
   * The rotating shader's sampling coordinate: the rotated pixel plus the
   * parallax. With no rotation it is the flat shader's coordinate; with depth
   * 0 or no offset it is the rotated pixel alone.
   */
  function RotatingSampleCoord(vUv: Vec2, uMouse: Vec2, depthSample: Vec4, s: real, c: real): (r: Vec2)
    ensures s == 0.0 && c == 1.0 ==> r == FlatSampleCoord(vUv, uMouse, depthSample)
    ensures depthSample.r == 0.0 || uMouse == Zero2 ==> r == RotateAboutCentre(vUv, s, c)
    ensures depthSample.r == 1.0 ==> r == Add2(RotateAboutCentre(vUv, s, c), uMouse)
  {
    Add2(RotateAboutCentre(vUv, s, c), Parallax(uMouse, depthSample))
  }

  // ---------------------------------------------------------------------------
  // Whole fragment shaders

  /**
   * The flat shader's `gl_FragColor` at `vUv`. With no offset, or where the
   * depth map's red channel is 0, it is the encoded unshifted colour; where it
   * is 1, the encoded colour at `vUv + uMouse`.
   */
  function FlatFragColor(image: Vec2 -> Vec4, depthMap: Vec2 -> Vec4, pow: real -> real,
                         uMouse: Vec2, vUv: Vec2): (r: Vec4)
    ensures uMouse == Zero2 || depthMap(vUv).r == 0.0 ==> r == LinearTosRGB(pow, image(vUv))
    ensures depthMap(vUv).r == 1.0 ==> r == LinearTosRGB(pow, image(Add2(vUv, uMouse)))
  {
    var depthDistortion := depthMap(vUv);
    var original := image(FlatSampleCoord(vUv, uMouse, depthDistortion));
    LinearTosRGB(pow, original)
  }

  /**
   * The rotating shader's `gl_FragColor` at `vUv`. Where `sin` and `cos` of
   * `uRotation.z` are 0 and 1 it agrees with the flat shader.
   */
  function RotatingFragColor(image: Vec2 -> Vec4, depthMap: Vec2 -> Vec4, pow: real -> real,
                             sin: real -> real, cos: real -> real,
                             uMouse: Vec2, uRotation: Vec3, vUv: Vec2): (r: Vec4)
    ensures sin(uRotation.z) == 0.0 && cos(uRotation.z) == 1.0 ==>
              r == FlatFragColor(image, depthMap, pow, uMouse, vUv)
  {
    var depthDistortion := depthMap(vUv);
    var s, c := sin(uRotation.z), cos(uRotation.z);
    var original := image(RotatingSampleCoord(vUv, uMouse, depthDistortion, s, c));
    LinearTosRGB(pow, original)
  }

  /** Only the roll component `uRotation.z` reaches the rotating shader's output. */
  lemma OnlyRollRotates(image: Vec2 -> Vec4, depthMap: Vec2 -> Vec4, pow: real -> real,
                        sin: real -> real, cos: real -> real,
                        uMouse: Vec2, u1: Vec3, u2: Vec3, vUv: Vec2)
    requires u1.z == u2.z
    ensures RotatingFragColor(image, depthMap, pow, sin, cos, uMouse, u1, vUv)
         == RotatingFragColor(image, depthMap, pow, sin, cos, uMouse, u2, vUv)
  {
  }

  /**
   * Zero offset and zero rotation: every pixel is the encoded colour of the
   * unshifted image sample, whatever the depth map holds.
   */
  lemma ZeroOffsetIsUnshifted(image: Vec2 -> Vec4, depthMap: Vec2 -> Vec4, pow: real -> real,
                              sin: real -> real, cos: real -> real, vUv: Vec2)
    requires sin(0.0) == 0.0 && cos(0.0) == 1.0
    ensures RotatingFragColor(image, depthMap, pow, sin, cos, Zero2, Zero3, vUv)
         == LinearTosRGB(pow, image(vUv))
    ensures FlatFragColor(image, depthMap, pow, InitialUMouse, vUv) == LinearTosRGB(pow, image(vUv))
  {
  }

  /**
   * A solid red image over a solid mid-grey depth map with offset (0.02, 0):
   * every pixel samples at `vUv + (0.01, 0)` and comes out red, given that
   * `pow(1.0, 0.41666)` is 1.
   */
  lemma SolidRedScenario(pow: real -> real, vUv: Vec2)
    requires pow(1.0) == 1.0
    ensures FlatSampleCoord(vUv, Vec2(0.02, 0.0), Vec4(0.5, 0.5, 0.5, 1.0)) == Add2(vUv, Vec2(0.01, 0.0))
    ensures FlatFragColor((p: Vec2) => Vec4(1.0, 0.0, 0.0, 1.0), (p: Vec2) => Vec4(0.5, 0.5, 0.5, 1.0),
                          pow, Vec2(0.02, 0.0), vUv) == Vec4(1.0, 0.0, 0.0, 1.0)
  {
  }
}
