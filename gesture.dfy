/**
 * The canvas gesture state machine as a case table (`PaintingCanvas::update`
 * and `mouse_interaction`). `Step` gives, for the pending gesture before an
 * event, the event, the cursor position inside the canvas (`None` when the
 * cursor is outside) and the live style, what the canvas does: it aborts, or it
 * returns a status, at most one committed painting and the new pending gesture.
 * The imperative `Canvas.PaintingCanvas.Update` follows the source's arm order
 * and is proved to agree with this table.
 */
module Gesture {

  import opened Wrappers
  import opened Geometry
  import opened Palette
  import A = Actions
  import P = Paintings

  datatype TextPending =
    | One(from: Point)
    | Typing(from: Point, to: Point, text: string)

  datatype DrawingPending =
    | One(from: Point)
    | Two(from: Point, to: Point)
    | Bezier(from: Point, to: Point, control: Point)

  datatype Pending = Text(text: TextPending) | Drawing(drawing: DrawingPending)

  datatype Button = Left | Right | Middle | Back | Forward | Other(code: int)

  /**
   * The events the canvas receives: iced's mouse button events, key presses
   * (with the text they produce, if any) and everything else (cursor moves,
   * wheel scrolls, key releases, ...).
   */
  datatype Event =
    | ButtonPressed(button: Button)
    | ButtonReleased(button: Button)
    | KeyPressed(text: Option<string>)
    | OtherEvent

  /** `event::Status`: whether the canvas consumed the event. */
  datatype Status = Captured | Ignored

  /** The three `panic!`s of the update function. */
  datatype Panic =
    | DrawingWhileTyping     // "Drawing while typing tool is selected"
    | TypingWhileBezier      // "Typing while bezier tool is selected"
    | TypingWithoutTextTool  // "Typing when text tool not selected"

  /** The part of `canvas::State` the update function reads. */
  datatype Style = Style(action: A.Action, color: PaintColor, scale: real)

  datatype Outcome =
    | Aborted(reason: Panic)
    | Done(next: Option<Pending>, status: Status, painting: Option<P.Painting>)

  /** The key text `"\u{8}"` that deletes the last character while typing. */
  const Backspace: string := "\U{8}"

  /** `String::pop`, dropping the popped character: no effect on an empty string. */
  function Pop(s: string): (r: string)
    ensures s == [] ==> r == []
    ensures s != [] ==> r + [s[|s| - 1]] == s
  {
    if s == [] then [] else s[..|s| - 1]
  }

  function Ignore(p: Option<Pending>): Outcome
  {
    Done(p, Ignored, None)
  }

  function Capture(next: Pending): Outcome
  {
    Done(Some(next), Captured, None)
  }

  function Commit(painting: P.Painting): Outcome
  {
    Done(None, Captured, Some(painting))
  }

  predicate IsTyping(p: Option<Pending>)
  {
    p.Some? && p.value.Text? && p.value.text.Typing?
  }

  /** No `DrawingPending::Bezier` is ever stored: nothing in the update builds one. */
  predicate NoBezierPending(p: Option<Pending>)
  {
    !(p.Some? && p.value.Drawing? && p.value.drawing.Bezier?)
  }

  /** A left button release over the canvas aborts exactly in these cases. */
  predicate AbortsOnRelease(p: Option<Pending>, action: A.Action)
  {
    p.Some? && !IsTyping(p) &&
    if action == A.Tool(A.Text) then p.value.Drawing? else p.value.Text?
  }

  /**
   * One event, organised by the pending gesture:
   * - nothing pending: a left press over the canvas anchors a new gesture;
   * - typing: a key with text edits the buffer (backspace only deletes when the
   *   cursor is over the canvas and the text tool is active, otherwise it is
   *   appended like any text), and a left press over the canvas outside the
   *   box commits the text under the text tool;
   * - any other gesture: only left presses and releases over the canvas act.
   */
  function Step(p: Option<Pending>, ev: Event, cursor: Option<Point>, s: Style): (o: Outcome)
    ensures o.Aborted? <==> ev == ButtonReleased(Left) && cursor.Some? && AbortsOnRelease(p, s.action)
    ensures o.Done? && o.painting.Some? ==> o.status == Captured && o.next == None
    ensures o.Done? && o.status == Ignored ==> o == Ignore(p)
    ensures cursor == None && !IsTyping(p) ==> o == Ignore(p)
  {
    var isText, isBezier := s.action == A.Tool(A.Text), s.action == A.Shape(A.Bezier);
    match p
    case None =>
      if cursor.Some? && ev == ButtonPressed(Left) then
        Capture(if isText then Text(TextPending.One(cursor.value)) else Drawing(DrawingPending.One(cursor.value)))
      else Ignore(p)
    case Some(Text(Typing(from, to, text))) =>
      var editing := cursor.Some? && isText;
      (match ev
       case KeyPressed(Some(key)) =>
         var edited := if editing && key == Backspace then Pop(text) else text + key;
         Capture(Text(Typing(from, to, edited)))
       case ButtonPressed(Left) =>
         if editing && !InBox(from, to, cursor.value) then Commit(P.Text(from, to, text, s.color, s.scale))
         else Ignore(p)
       case _ => Ignore(p))
    case Some(Text(One(from))) =>
      if cursor.Some? && ev == ButtonReleased(Left) then
        if isText then Capture(Text(Typing(from, cursor.value, "")))
        else if isBezier then Aborted(TypingWhileBezier)
        else Aborted(TypingWithoutTextTool)
      else Ignore(p)
    case Some(Drawing(One(from))) =>
      if cursor.Some? && ev == ButtonReleased(Left) then
        if isText then Aborted(DrawingWhileTyping)
        else if isBezier then Capture(Drawing(Two(from, cursor.value)))
        else Commit(P.New(s.action, from, cursor.value, s.color, s.scale))
      else Ignore(p)
    case Some(Drawing(Two(from, to))) =>
      if cursor.Some? && ev == ButtonReleased(Left) then
        if isText then Aborted(DrawingWhileTyping)
        else if isBezier then Ignore(p)
        else Commit(P.New(s.action, from, cursor.value, s.color, s.scale))
      else if cursor.Some? && ev == ButtonPressed(Left) && isBezier then
        Commit(P.Bezier(from, to, cursor.value, s.color, s.scale))
      else Ignore(p)
    case Some(Drawing(Bezier(from, to, _))) =>
      if cursor.Some? && ev == ButtonReleased(Left) && isText then Aborted(DrawingWhileTyping)
      else if cursor.Some? && ev == ButtonPressed(Left) then
        Commit(P.Bezier(from, to, cursor.value, s.color, s.scale))
      else Ignore(p)
  }

  /** `mouse::Interaction` values the canvas asks for. */
  datatype Interaction = TextCursor | Crosshair | Standard

  /**
   * `mouse_interaction`: a text cursor while a text box is being anchored, a
   * crosshair for every other state while over the canvas, and the default
   * pointer (`mouse::Interaction::default()`) elsewhere.
   */
  function MouseInteraction(p: Option<Pending>, overCanvas: bool): (i: Interaction)
    ensures i == TextCursor <==> overCanvas && p.Some? && p.value.Text? && p.value.text.One?
    ensures i == Standard <==> !overCanvas
  {
    match p
    case Some(Text(One(_))) => if overCanvas then TextCursor else Standard
    case _ => if overCanvas then Crosshair else Standard
  }
}
