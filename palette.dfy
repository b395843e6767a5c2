/**
 * The colour palette of the paint application (`PaintColor`).
 *
 * Colour channels, opacity and scale are `f32` values in the application; the
 * model only copies them, so they are `real`s here and nothing is computed on
 * them.
 */
module Palette {

  /** iced's `Color`: four channels, only ever copied. */
  datatype Rgba = Rgba(r: real, g: real, b: real, a: real)

  datatype PaintColor =
    | Black(alpha: real)
    | White
    | Grey
    | Ivory
    | Red
    | Orange
    | Yellow
    | Green
    | Blue
    | Indigo
    | Violet
    | Rose
    | Cyan
    | Fuchsia
    | Empty
    | Custom(color: Rgba)

  /** `PaintColor::default()`: opaque black. */
  const DefaultColor: PaintColor := Black(1.0)

  /**
   * `PaintColor::opacity`: only the black entry has an opacity channel; the
   * call rewrites it and hands every other colour back as it is.
   */
  function WithOpacity(c: PaintColor, opacity: real): (r: PaintColor)
    ensures r.Black? <==> c.Black?
    ensures r.Black? ==> r.alpha == opacity
    ensures !c.Black? ==> r == c
  {
    match c
    case Black(_) => Black(opacity)
    case _ => c
  }

  /** Setting the opacity twice is the same as setting it once, to the later value. */
  lemma WithOpacityLastWins(c: PaintColor, first: real, second: real)
    ensures WithOpacity(WithOpacity(c, first), second) == WithOpacity(c, second)
  {
  }

  /** Applying the opacity a colour already has changes nothing. */
  lemma WithOpacityOwnAlpha(c: PaintColor)
    requires c.Black?
    ensures WithOpacity(c, c.alpha) == c
  {
  }
}
