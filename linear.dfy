/**
 * The GLSL and JavaScript vector values the core passes around, over the reals,
 * with the component-wise operations the shaders use.
 */
module Linear {
  /** `vec2`, `[x, y]`; also a texture coordinate. */
  datatype Vec2 = Vec2(x: real, y: real)
  /** `vec3`, `[x, y, z]`. */
  datatype Vec3 = Vec3(x: real, y: real, z: real)
  /** `vec4`, an RGBA colour. */
  datatype Vec4 = Vec4(r: real, g: real, b: real, a: real)

  const Zero2: Vec2 := Vec2(0.0, 0.0)
  const Zero3: Vec3 := Vec3(0.0, 0.0, 0.0)

  /** `u + v` */
  function Add2(u: Vec2, v: Vec2): Vec2 { Vec2(u.x + v.x, u.y + v.y) }
  /** `v * k` for a scalar `k` */
  function Scale2(v: Vec2, k: real): Vec2 { Vec2(v.x * k, v.y * k) }
  /** `v + k` for a scalar `k` (GLSL adds a float to every component) */
  function Shift2(v: Vec2, k: real): Vec2 { Vec2(v.x + k, v.y + k) }

  /** `v * k` for a scalar `k` */
  function Scale3(v: Vec3, k: real): Vec3 { Vec3(v.x * k, v.y * k, v.z * k) }
  /** `v + k` for a scalar `k` */
  function Shift3(v: Vec3, k: real): Vec3 { Vec3(v.x + k, v.y + k, v.z + k) }

  /** The squared Euclidean distance between two points. */
  function DistSq(u: Vec2, v: Vec2): real
  {
    (u.x - v.x) * (u.x - v.x) + (u.y - v.y) * (u.y - v.y)
  }
}
