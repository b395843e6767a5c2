/**
 * The canvas widget: its style state (`canvas::State` and its setters) and the
 * program that owns the pending gesture (`PaintingCanvas` with the
 * `Option<Pending>` iced keeps for it) and updates it one event at a time.
 */
module Canvas {

  import opened Wrappers
  import opened Geometry
  import opened Palette
  import A = Actions
  import P = Paintings
  import opened Gesture

  /**
   * `canvas::State`. The render cache is reduced to whether it holds geometry;
   * the colour is the palette entry whose RGBA value iced would hold.
   */
  class State {
    var cacheFilled: bool
    var currentAction: A.Action
    var color: PaintColor
    var scale: real

    /** `State::default()`: empty cache, default action, iced's default (all-zero) colour, zero scale. */
    constructor ()
      ensures !cacheFilled && currentAction == A.DefaultAction
      ensures color == Custom(Rgba(0.0, 0.0, 0.0, 0.0)) && scale == 0.0
    {
      cacheFilled := false;
      currentAction := A.DefaultAction;
      color := Custom(Rgba(0.0, 0.0, 0.0, 0.0));
      scale := 0.0;
    }

    /** The style a gesture reads when it handles an event. */
    function Style(): Style
      reads this
    {
      Gesture.Style(currentAction, color, scale)
    }

    /** `State::clear`: drops the cached geometry; the style is untouched. */
    method Clear()
      modifies this
      ensures !cacheFilled
      ensures currentAction == old(currentAction) && color == old(color) && scale == old(scale)
    {
      cacheFilled := false;
    }

    /** `State::action`. */
    method SetAction(action: A.Action)
      modifies this
      ensures currentAction == action
      ensures cacheFilled == old(cacheFilled) && color == old(color) && scale == old(scale)
    {
      currentAction := action;
    }

    /** `State::color`. */
    method SetColor(c: PaintColor)
      modifies this
      ensures color == c
      ensures cacheFilled == old(cacheFilled) && currentAction == old(currentAction) && scale == old(scale)
    {
      color := c;
    }

    /** `State::scale`. */
    method SetScale(s: real)
      modifies this
      ensures scale == s
      ensures cacheFilled == old(cacheFilled) && currentAction == old(currentAction) && color == old(color)
    {
      scale := s;
    }
  }

  /** What `update` hands back to iced: a panic, or a status with at most one painting. */
  datatype Reply =
    | Panicked(reason: Panic)
    | Returned(status: Status, painting: Option<P.Painting>)

  function ReplyOf(o: Outcome): Reply
  {
    match o
    case Aborted(why) => Panicked(why)
    case Done(_, status, painting) => Returned(status, painting)
  }

  /** The pending gesture after an outcome; a panic leaves it as it was. */
  function PendingAfter(o: Outcome, before: Option<Pending>): Option<Pending>
  {
    if o.Aborted? then before else o.next
  }

  /** `PaintingCanvas` together with the pending gesture iced stores for it. */
  class PaintingCanvas {
    const state: State
    var pending: Option<Pending>

    ghost predicate Valid()
      reads this
    {
      NoBezierPending(pending)
    }

    /** The program state iced creates for a fresh canvas: nothing pending. */
    constructor (state: State)
      ensures this.state == state && pending == None && Valid()
    {
      this.state := state;
      pending := None;
    }

    /**
     * `PaintingCanvas::update`, arm by arm: (1) typing with the cursor over the
     * canvas under the text tool, (2) typing otherwise, (3) the cursor over the
     * canvas, (4) anything else. The result and the new pending gesture are
     * those of the case table `Step`.
     */
    method Update(ev: Event, cursor: Option<Point>) returns (r: Reply)
      modifies this
      ensures r == ReplyOf(Step(old(pending), ev, cursor, state.Style()))
      ensures pending == PendingAfter(Step(old(pending), ev, cursor, state.Style()), old(pending))
      ensures old(Valid()) ==> Valid()
    {
      var action, color, scale := state.currentAction, state.color, state.scale;
      var snapshot := pending;
      if cursor.Some? && IsTyping(snapshot) && action == A.Tool(A.Text) {
        var from, to, text := snapshot.value.text.from, snapshot.value.text.to, snapshot.value.text.text;
        match ev {
          case KeyPressed(Some(key)) =>
            if key == Backspace {
              text := Pop(text);
            } else {
              text := text + key;
            }
            pending := Some(Text(Typing(from, to, text)));
            return Returned(Captured, None);
          case ButtonPressed(Left) =>
            if !InBox(from, to, cursor.value) {
              var painting := P.Text(from, to, text, color, scale);
              pending := None;
              return Returned(Captured, Some(painting));
            }
          case _ =>
        }
      } else if IsTyping(snapshot) {
        var from, to, text := snapshot.value.text.from, snapshot.value.text.to, snapshot.value.text.text;
        match ev {
          case KeyPressed(Some(key)) =>
            text := text + key;
            pending := Some(Text(Typing(from, to, text)));
            return Returned(Captured, None);
          case _ =>
        }
      } else if cursor.Some? {
        var position := cursor.value;
        match ev {
          case ButtonReleased(Left) =>
            if action == A.Tool(A.Text) {
              match pending {
                case Some(Text(One(from))) =>
                  pending := Some(Text(Typing(from, position, "")));
                  return Returned(Captured, None);
                case Some(_) =>
                  return Panicked(DrawingWhileTyping);
                case None =>
              }
            } else if action == A.Shape(A.Bezier) {
              match pending {
                case Some(Drawing(One(from))) =>
                  pending := Some(Drawing(Two(from, position)));
                  return Returned(Captured, None);
                case Some(Text(_)) =>
                  return Panicked(TypingWhileBezier);
                case _ =>
              }
            } else {
              match pending {
                case Some(Drawing(One(from))) =>
                  var painting := P.New(action, from, position, color, scale);
                  pending := None;
                  return Returned(Captured, Some(painting));
                case Some(Drawing(Two(from, _))) =>
                  var painting := P.New(action, from, position, color, scale);
                  pending := None;
                  return Returned(Captured, Some(painting));
                case Some(Text(_)) =>
                  return Panicked(TypingWithoutTextTool);
                case Some(Drawing(Bezier(_, _, _))) =>
                case None =>
              }
            }
          case ButtonPressed(Left) =>
            match pending {
              case Some(Drawing(Two(from, to))) =>
                // the guard falls through to `Some(_) => {}` for other actions
                if action == A.Shape(A.Bezier) {
                  var painting := P.Bezier(from, to, position, color, scale);
                  pending := None;
                  return Returned(Captured, Some(painting));
                }
              case Some(Drawing(Bezier(from, to, _))) =>
                var painting := P.Bezier(from, to, position, color, scale);
                pending := None;
                return Returned(Captured, Some(painting));
              case Some(Text(Typing(_, _, _))) =>
                // arms (1) and (2) have taken every typing state: this arm is dead
                if action == A.Tool(A.Text) {
                  assert false;
                }
              case Some(_) =>
              case None =>
                pending := Some(if action == A.Tool(A.Text) then Text(TextPending.One(position)) else Drawing(DrawingPending.One(position)));
                return Returned(Captured, None);
            }
          case _ =>
        }
      }
      return Returned(Ignored, None);
    }
  }
}
