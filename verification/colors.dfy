/** Unity's `Color`, `Vector4` and `Mathf.Clamp01`, over unbounded reals.
    IEEE single-precision rounding is not modelled. */
module Colors {

  /** A colour with red, green, blue and alpha components. */
  datatype Color = Color(r: real, g: real, b: real, a: real)

  /** A four-component vector as returned by `Material.GetVector`. */
  datatype Vector4 = Vector4(x: real, y: real, z: real, w: real)

  const White := Color(1.0, 1.0, 1.0, 1.0)
  /** Unity's `Color.black`. */
  const Black := Color(0.0, 0.0, 0.0, 1.0)
  /** The zero colour, returned for a colour property the material lacks. */
  const Clear := Color(0.0, 0.0, 0.0, 0.0)
  const ZeroVector := Vector4(0.0, 0.0, 0.0, 0.0)

  /** Unity's `Mathf.Clamp01`: the nearest value in [0, 1]. */
  function Clamp01(v: real): (r: real)
    ensures 0.0 <= r <= 1.0
    ensures 0.0 <= v <= 1.0 ==> r == v
    ensures v < 0.0 ==> r == 0.0
    ensures v > 1.0 ==> r == 1.0
  {
    if v < 0.0 then 0.0 else if v > 1.0 then 1.0 else v
  }

  /** The colour with red, green and blue multiplied by `k` and alpha kept:
      the three `BaseColorFactor.R *= k` style assignments of the source. */
  function ScaleRgb(c: Color, k: real): (s: Color)
    ensures s.a == c.a
    ensures s.r == c.r * k && s.g == c.g * k && s.b == c.b * k
  {
    c.(r := c.r * k, g := c.g * k, b := c.b * k)
  }

  /** The colour with alpha forced to one (`BaseColorFactor.A = 1f`). */
  function OpaqueAlpha(c: Color): (o: Color)
    ensures o.a == 1.0
    ensures o.r == c.r && o.g == c.g && o.b == c.b
  {
    c.(a := 1.0)
  }
}
