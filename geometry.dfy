/**
 * Canvas coordinates. The application uses `f32` points; the gesture logic
 * only copies them and compares them in the text box hit test, so they are
 * modelled as pairs of reals (no rounding, no NaN).
 */
module Geometry {

  datatype Point = Point(x: real, y: real)

  /**
   * The hit test of a typing box: `Rectangle::new(from, Size::new(to.x - from.x,
   * to.y - from.y)).contains(p)`. iced's `Rectangle::contains` is not part of
   * this model; it is read here as the half-open box
   * `x <= p.x < x + width` and `y <= p.y < y + height`.
   */
  predicate InBox(from: Point, to: Point, p: Point)
  {
    var width, height := to.x - from.x, to.y - from.y;
    from.x <= p.x < from.x + width && from.y <= p.y < from.y + height
  }

  /** A box dragged up or to the left has a negative size and contains no point. */
  lemma InvertedBoxIsEmpty(from: Point, to: Point, p: Point)
    requires to.x <= from.x || to.y <= from.y
    ensures !InBox(from, to, p)
  {
  }

  /** The anchor corner belongs to the box exactly when the box is not empty. */
  lemma AnchorInBox(from: Point, to: Point)
    ensures InBox(from, to, from) <==> from.x < to.x && from.y < to.y
  {
  }
}
