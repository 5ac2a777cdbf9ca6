/**
  Value types of the game engine that the components exchange, with the engine's
  own arithmetic written out over reals (single-precision rounding is not modelled):
  Vector2, Vector3, Color, the 3x4 part of a Matrix4x4 with its two products, and
  one log entry per call made on a VisualEffect (the GPU graph the components drive).
*/
module Engine {

  datatype Option<T> = None | Some(value: T)

  datatype Vec2 = Vec2(x: real, y: real)

  datatype Vec3 = Vec3(x: real, y: real, z: real)

  /** Vector3.zero */
  const Zero3: Vec3 := Vec3(0.0, 0.0, 0.0)

  function Add(a: Vec3, b: Vec3): Vec3
  {
    Vec3(a.x + b.x, a.y + b.y, a.z + b.z)
  }

  /** `v / k` on a Vector3: every component divided by k. */
  function DivideBy(v: Vec3, k: real): Vec3
    requires k != 0.0
  {
    Vec3(v.x / k, v.y / k, v.z / k)
  }

  datatype Color = Color(r: real, g: real, b: real, a: real)

  /** `new Color(v.x, v.y, v.z, 1)`: a vector stored in a texel, alpha 1. */
  function Opaque(v: Vec3): Color
  {
    Color(v.x, v.y, v.z, 1.0)
  }

  /**
    The rows 0..2 of a Matrix4x4, the only part MultiplyPoint3x4 and MultiplyVector read.
    Entry mRC is row R, column C.
  */
  datatype Matrix4x4 = Matrix4x4(
    m00: real, m01: real, m02: real, m03: real,
    m10: real, m11: real, m12: real, m13: real,
    m20: real, m21: real, m22: real, m23: real)

  /** Matrix4x4.MultiplyPoint3x4: the affine transform of a point (rotation, scale and translation). */
  function MultiplyPoint3x4(m: Matrix4x4, p: Vec3): Vec3
  {
    Vec3(m.m00 * p.x + m.m01 * p.y + m.m02 * p.z + m.m03,
         m.m10 * p.x + m.m11 * p.y + m.m12 * p.z + m.m13,
         m.m20 * p.x + m.m21 * p.y + m.m22 * p.z + m.m23)
  }

  /** Matrix4x4.MultiplyVector: the same transform without the translation column. */
  function MultiplyVector(m: Matrix4x4, v: Vec3): Vec3
  {
    Vec3(m.m00 * v.x + m.m01 * v.y + m.m02 * v.z,
         m.m10 * v.x + m.m11 * v.y + m.m12 * v.z,
         m.m20 * v.x + m.m21 * v.y + m.m22 * v.z)
  }

  /**
    A Texture2D reference as the components hand it around: a null slot of an inspector
    array, an imported asset, or the texture a component creates for itself at start-up.
  */
  datatype TextureRef = NullTexture | Asset(id: nat) | Generated

  /** One setter call on a VisualEffect: the exposed property's name and the value pushed. */
  datatype EffectCall =
    | SetFloat(name: string, f: real)
    | SetUInt(name: string, u: nat)
    | SetVector2(name: string, v2: Vec2)
    | SetVector3(name: string, v3: Vec3)
    | SetTexture(name: string, texture: TextureRef)
}
