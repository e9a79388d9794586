/** Colours as exact reals. */
module Colors {
  datatype Vec3 = Vec3(r: real, g: real, b: real)
  datatype Vec4 = Vec4(rgb: Vec3, a: real)

  function Splat(x: real): Vec3 {
    Vec3(x, x, x)
  }

  const BLACK: Vec4 := Vec4(Vec3(0.0, 0.0, 0.0), 0.0)

  function Add(x: Vec3, y: Vec3): Vec3 {
    Vec3(x.r + y.r, x.g + y.g, x.b + y.b)
  }

  function Sub(x: Vec3, y: Vec3): Vec3 {
    Vec3(x.r - y.r, x.g - y.g, x.b - y.b)
  }

  function Mul(x: Vec3, y: Vec3): Vec3 {
    Vec3(x.r * y.r, x.g * y.g, x.b * y.b)
  }

  function Dot(x: Vec3, y: Vec3): real {
    x.r * y.r + x.g * y.g + x.b * y.b
  }

  function Max(x: real, y: real): real {
    if x < y then y else x
  }

  function Min(x: real, y: real): real {
    if x < y then x else y
  }

  function Clamp(x: real, low: real, high: real): real {
    Min(Max(x, low), high)
  }

  function Clamp3(x: Vec3, low: real, high: real): Vec3 {
    Vec3(Clamp(x.r, low, high), Clamp(x.g, low, high), Clamp(x.b, low, high))
  }
}
