/**
 * Committed drawings (`canvas::Painting`) and the constructor that turns the
 * live action, two points and the live style into one (`Painting::new`).
 * A painting is a snapshot: it carries its own colour and scale.
 */
module Paintings {

  import opened Geometry
  import opened Palette
  import A = Actions

  datatype Painting =
    | FreeForm(color: PaintColor, scale: real)
    | Text(topLeft: Point, bottomRight: Point, text: string, color: PaintColor, scale: real)
    | Line(from: Point, to: Point, color: PaintColor, scale: real)
    | Bezier(from: Point, to: Point, control: Point, color: PaintColor, scale: real)
    | Rectangle(topLeft: Point, bottomRight: Point, color: PaintColor, scale: real)
    | Circle(center: Point, radius: Point, color: PaintColor, scale: real)
    | Triangle(left: Point, right: Point, color: PaintColor, scale: real)
    | Bestagon(topLeft: Point, bottomRight: Point, color: PaintColor, scale: real)
    | Eraser(scale: real)
    | Select(topLeft: Point, bottomRight: Point, color: PaintColor, scale: real)

  /** The text a text painting gets when it is built by `Painting::new`. */
  const Placeholder: string := "Text painting here invalid"

  /** The points a painting carries, in declaration order. */
  function Points(p: Painting): seq<Point>
  {
    match p
    case FreeForm(_, _) => []
    case Text(topLeft, bottomRight, _, _, _) => [topLeft, bottomRight]
    case Line(from, to, _, _) => [from, to]
    case Bezier(from, to, control, _, _) => [from, to, control]
    case Rectangle(topLeft, bottomRight, _, _) => [topLeft, bottomRight]
    case Circle(center, radius, _, _) => [center, radius]
    case Triangle(left, right, _, _) => [left, right]
    case Bestagon(topLeft, bottomRight, _, _) => [topLeft, bottomRight]
    case Eraser(_) => []
    case Select(topLeft, bottomRight, _, _) => [topLeft, bottomRight]
  }

  /** The actions whose gesture commits a painting of `p`'s kind, read off the variant. */
  predicate DrawnBy(a: A.Action, p: Painting)
  {
    match p
    case FreeForm(_, _) => a == A.Tool(A.Brush) || a == A.Tool(A.Pencil)
    case Text(_, _, _, _, _) => a == A.Tool(A.Text)
    case Line(_, _, _, _) => a == A.Shape(A.Line)
    case Bezier(_, _, _, _, _) => a == A.Shape(A.Bezier)
    case Rectangle(_, _, _, _) => a == A.Shape(A.Rectangle)
    case Circle(_, _, _, _) => a == A.Shape(A.Circle)
    case Triangle(_, _, _, _) => a == A.Shape(A.Triangle)
    case Bestagon(_, _, _, _) => a == A.Shape(A.Bestagon)
    case Eraser(_) => a == A.Tool(A.Eraser)
    case Select(_, _, _, _) => a == A.Select
  }

  /** Whether the action's painting records the two gesture points. */
  predicate HasGeometry(a: A.Action)
  {
    !(a.Tool? && a.tool != A.Text)
  }

  /**
   * `Painting::new`: total over every action. The painting is of the kind the
   * action draws, captures the style by value, records `from` then `to` (the
   * Bezier uses `to` as its control point too), and a text painting holds the
   * fixed placeholder.
   */
  function New(action: A.Action, from: Point, to: Point, color: PaintColor, scale: real): (p: Painting)
    ensures DrawnBy(action, p)
    ensures p.scale == scale
    ensures !p.Eraser? ==> p.color == color
    ensures Points(p) ==
      if !HasGeometry(action) then []
      else if action == A.Shape(A.Bezier) then [from, to, to]
      else [from, to]
    ensures p.Text? ==> p.text == Placeholder
  {
    match action
    case Tool(Text) => Text(from, to, Placeholder, color, scale)
    case Tool(Brush) => FreeForm(color, scale)
    case Tool(Pencil) => FreeForm(color, scale)
    case Tool(Eraser) => Eraser(scale)
    case Select => Select(from, to, color, scale)
    case Shape(Rectangle) => Rectangle(from, to, color, scale)
    case Shape(Line) => Line(from, to, color, scale)
    case Shape(Triangle) => Triangle(from, to, color, scale)
    case Shape(Circle) => Circle(from, to, color, scale)
    case Shape(Bestagon) => Bestagon(from, to, color, scale)
    case Shape(Bezier) => Bezier(from, to, to, color, scale)
  }
}
