/** Colours and paints used by the generators. */
module Colors {

  /** An opaque RGB colour with channels in the unit interval. */
  datatype Color = Color(red: real, green: real, blue: real)

  /** A stroke paint: a plain colour, or the result of
      `from.interpolate(to, t)`, whose arithmetic is left uninterpreted. */
  datatype Paint = Solid(color: Color) | Interpolated(from: Color, to: Color, t: real)

  /** JavaFX Color.BLACK. */
  const Black := Color(0.0, 0.0, 0.0)

  /** JavaFX Color.GREEN, #008000. */
  const Green := Color(0.0, 128.0 / 255.0, 0.0)

  /** JavaFX Color.SADDLEBROWN, #8B4513. */
  const SaddleBrown := Color(139.0 / 255.0, 69.0 / 255.0, 19.0 / 255.0)

  /** Color.color(v, 0, 0): a shade of red. */
  function Red(v: real): Color {
    Color(v, 0.0, 0.0)
  }
}
