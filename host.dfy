/**
 * The application (`Paint`): the style the toolbar and side panel choose, the
 * list of drawings, and the canvas state it keeps in step with that style.
 */
module Host {

  import opened Palette
  import A = Actions
  import P = Paintings
  import Canvas

  /** The messages the toolbar, palette, sliders and canvas send. */
  datatype Message =
    | Action(action: A.Action)
    | Color(color: PaintColor)
    | Clear
    | Opacity(opacity: real)
    | Scale(scale: real)
    | None

  /** The colour entries of the palette, eighteen slots with four empty ones. */
  function DefaultPalette(opacity: real): (r: seq<PaintColor>)
    ensures |r| == 18 && r[1] == Black(opacity)
  {
    [White, Black(opacity), Grey, Ivory, Red, Orange, Yellow, Green, Blue,
     Indigo, Violet, Fuchsia, Rose, Cyan, Empty, Empty, Empty, Empty]
  }

  /** What the canvas view hands back for a committed painting: it is mapped to `Message::None`. */
  function PaintingMessage(painting: P.Painting): (m: Message)
    ensures m.None?
  {
    None
  }

  class Paint {
    var action: A.Action
    var color: PaintColor
    const palette: seq<PaintColor>
    var opacity: real
    var scale: real
    var drawings: seq<P.Painting>
    const canvas: Canvas.State

    /**
     * The canvas always paints with the host's style: its action and scale are
     * the host's, and its colour is the host's colour at the host's opacity.
     * No painting ever reaches `drawings`, which is only ever cleared.
     */
    ghost predicate Valid()
      reads this, canvas
    {
      && canvas.currentAction == action
      && canvas.color == WithOpacity(color, opacity)
      && canvas.scale == scale
      && drawings == []
    }

    /** `Paint::default()`. */
    constructor ()
      ensures Valid()
      ensures action == A.DefaultAction && color == DefaultColor && opacity == 1.0 && scale == 1.0
      ensures palette == DefaultPalette(1.0) && !canvas.cacheFilled
    {
      var opacity := 1.0;
      var scale := 1.0;
      var color := DefaultColor;
      var canvas := new Canvas.State();
      canvas.SetScale(scale);
      canvas.SetColor(color);
      this.palette := DefaultPalette(opacity);
      this.action := A.DefaultAction;
      this.color := color;
      this.opacity := opacity;
      this.scale := scale;
      this.drawings := [];
      this.canvas := canvas;
    }

    /**
     * `Paint::update`: each message sets one part of the style and forwards it
     * to the canvas, the canvas colour being the host's colour at the host's
     * opacity; `Clear` empties the drawings and the canvas cache.
     */
    method Update(message: Message)
      modifies this, canvas
      ensures action == (if message.Action? then message.action else old(action))
      ensures color == (if message.Color? then message.color else old(color))
      ensures opacity == (if message.Opacity? then message.opacity else old(opacity))
      ensures scale == (if message.Scale? then message.scale else old(scale))
      ensures drawings == (if message.Clear? then [] else old(drawings))
      ensures canvas.currentAction == (if message.Action? then action else old(canvas.currentAction))
      ensures canvas.color == (if message.Color? || message.Opacity? then WithOpacity(color, opacity) else old(canvas.color))
      ensures canvas.scale == (if message.Scale? then scale else old(canvas.scale))
      ensures canvas.cacheFilled == (if message.Clear? then false else old(canvas.cacheFilled))
      ensures old(Valid()) ==> Valid()
    {
      match message
      case Action(action) =>
        this.action := action;
        canvas.SetAction(action);
      case Color(color) =>
        this.color := color;
        canvas.SetColor(WithOpacity(this.color, opacity));
      case Clear =>
        drawings := [];
        canvas.Clear();
      case Opacity(opacity) =>
        this.opacity := opacity;
        canvas.SetColor(WithOpacity(color, this.opacity));
      case Scale(scale) =>
        this.scale := scale;
        canvas.SetScale(scale);
      case None =>
    }

    /** A painting committed by the canvas arrives as `Message::None` and leaves the application as it was. */
    method Receive(painting: P.Painting)
      modifies this, canvas
      ensures old(Valid()) ==> Valid()
      ensures action == old(action) && color == old(color) && opacity == old(opacity) && scale == old(scale)
      ensures drawings == old(drawings)
      ensures canvas.currentAction == old(canvas.currentAction) && canvas.color == old(canvas.color)
      ensures canvas.scale == old(canvas.scale) && canvas.cacheFilled == old(canvas.cacheFilled)
    {
      Update(PaintingMessage(painting));
    }
  }
}
