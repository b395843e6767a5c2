/** The drawing modes the toolbar selects (`Shapes`, `Tool`, `Action`). */
module Actions {

  datatype Shapes = Line | Bezier | Rectangle | Circle | Triangle | Bestagon

  datatype Tool = Pencil | Eraser | Text | Brush

  datatype Action = Tool(tool: Tool) | Select | Shape(shape: Shapes)

  /** `Action::default()`: the default tool, which is the brush. */
  const DefaultAction: Action := Tool(Brush)

  /** `Action::has_opacity`: whether the side panel offers an opacity control. */
  function HasOpacity(a: Action): (r: bool)
    ensures r <==> a != Select && a != Tool(Eraser)
  {
    match a
    case Select => false
    case Shape(_) => true
    case Tool(Eraser) => false
    case Tool(_) => true
  }

  /** `Action::has_scale`: whether the side panel offers a scale control. */
  function HasScale(a: Action): (r: bool)
    ensures r <==> a.Tool?
  {
    if a.Tool? then true else false
  }
}
