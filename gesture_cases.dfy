/**
 * The rows of the gesture case table, one event at a time, as the update
 * function's callers rely on them.
 */
module GestureCases {

  import opened Wrappers
  import opened Geometry
  import A = Actions
  import P = Paintings
  import opened Gesture

  /** A left press over an idle canvas anchors a text box under the text tool and a drawing otherwise. */
  lemma PressWhenIdle(at: Point, s: Style)
    ensures Step(None, ButtonPressed(Left), Some(at), s) ==
      Done(Some(if s.action == A.Tool(A.Text) then Text(TextPending.One(at)) else Drawing(DrawingPending.One(at))), Captured, None)
  {
  }

  /** Only a left press over the canvas can start a gesture. */
  lemma OnlyPressStartsGesture(ev: Event, cursor: Option<Point>, s: Style)
    requires Step(None, ev, cursor, s) != Ignore(None)
    ensures ev == ButtonPressed(Left) && cursor.Some?
  {
  }

  /**
   * A release on a one- or two-point drawing commits `Painting::new` from the
   * gesture's first point to the cursor (the second point of `Two` is dropped)
   * under every action but the text tool and the Bezier shape.
   */
  lemma ReleaseCommitsDrawing(d: DrawingPending, at: Point, s: Style)
    requires d.One? || d.Two?
    requires s.action != A.Tool(A.Text) && s.action != A.Shape(A.Bezier)
    ensures Step(Some(Drawing(d)), ButtonReleased(Left), Some(at), s) ==
      Done(None, Captured, Some(P.New(s.action, d.from, at, s.color, s.scale)))
  {
  }

  /** Under the Bezier shape: release on `One` moves to `Two`, release on `Two` does nothing, press on `Two` commits. */
  lemma BezierSteps(from: Point, to: Point, at: Point, s: Style)
    requires s.action == A.Shape(A.Bezier)
    ensures Step(Some(Drawing(DrawingPending.One(from))), ButtonReleased(Left), Some(at), s) ==
      Done(Some(Drawing(Two(from, at))), Captured, None)
    ensures Step(Some(Drawing(Two(from, to))), ButtonReleased(Left), Some(at), s) ==
      Done(Some(Drawing(Two(from, to))), Ignored, None)
    ensures Step(Some(Drawing(Two(from, to))), ButtonPressed(Left), Some(at), s) ==
      Done(None, Captured, Some(P.Bezier(from, to, at, s.color, s.scale)))
  {
  }

  /** Under the text tool a release sizes an anchored box and starts typing; with nothing pending it does nothing. */
  lemma TextToolRelease(from: Point, at: Point, s: Style)
    requires s.action == A.Tool(A.Text)
    ensures Step(Some(Text(TextPending.One(from))), ButtonReleased(Left), Some(at), s) ==
      Done(Some(Text(Typing(from, at, ""))), Captured, None)
    ensures Step(None, ButtonReleased(Left), Some(at), s) == Done(None, Ignored, None)
  {
  }

  /** With the cursor over the canvas under the text tool, backspace deletes the last character (if any). */
  lemma BackspaceDeletes(from: Point, to: Point, text: string, at: Point, s: Style)
    requires s.action == A.Tool(A.Text)
    ensures Step(Some(Text(Typing(from, to, text))), KeyPressed(Some(Backspace)), Some(at), s) ==
      Done(Some(Text(Typing(from, to, if text == [] then [] else text[..|text| - 1]))), Captured, None)
  {
  }

  /**
   * Any other key text is appended; and with the cursor off the canvas or
   * under another action, even the backspace character is appended verbatim.
   */
  lemma KeyTextAppended(from: Point, to: Point, text: string, key: string, cursor: Option<Point>, s: Style)
    requires key != Backspace || cursor == None || s.action != A.Tool(A.Text)
    ensures Step(Some(Text(Typing(from, to, text))), KeyPressed(Some(key)), cursor, s) ==
      Done(Some(Text(Typing(from, to, text + key))), Captured, None)
  {
  }

  /**
   * A left press while typing commits the text exactly when the cursor is over
   * the canvas, the text tool is active and the cursor is outside the box;
   * otherwise the typing state is left as it is.
   */
  lemma TypingPress(from: Point, to: Point, text: string, cursor: Option<Point>, s: Style)
    ensures var o := Step(Some(Text(Typing(from, to, text))), ButtonPressed(Left), cursor, s);
      if cursor.Some? && s.action == A.Tool(A.Text) && !InBox(from, to, cursor.value)
      then o == Done(None, Captured, Some(P.Text(from, to, text, s.color, s.scale)))
      else o == Done(Some(Text(Typing(from, to, text))), Ignored, None)
  {
  }

  /** Which panic a release raises: by the active action, never while typing or idle. */
  lemma AbortReasons(p: Option<Pending>, at: Point, s: Style)
    requires AbortsOnRelease(p, s.action)
    ensures Step(p, ButtonReleased(Left), Some(at), s) == Aborted(
      if s.action == A.Tool(A.Text) then DrawingWhileTyping
      else if s.action == A.Shape(A.Bezier) then TypingWhileBezier
      else TypingWithoutTextTool)
    ensures p.Some? && !IsTyping(p)
  {
  }

  /**
   * A typing gesture survives every event with its box: the event either edits
   * or keeps the buffer, or commits a text painting framed by the box.
   */
  lemma TypingKeepsBox(from: Point, to: Point, text: string, ev: Event, cursor: Option<Point>, s: Style)
    ensures var o := Step(Some(Text(Typing(from, to, text))), ev, cursor, s);
      o.Done? &&
      (o.next == None ==> o.painting == Some(P.Text(from, to, text, s.color, s.scale))) &&
      (o.next != None ==> o.painting == None && o.next.value.Text? && o.next.value.text.Typing? &&
                          o.next.value.text.from == from && o.next.value.text.to == to)
  {
  }

  /** A canvas anchoring a text box shows the text cursor over the canvas. */
  lemma AnchoringShowsTextCursor(at: Point, s: Style)
    requires s.action == A.Tool(A.Text)
    ensures MouseInteraction(Step(None, ButtonPressed(Left), Some(at), s).next, true) == TextCursor
    ensures MouseInteraction(Step(None, ButtonPressed(Left), Some(at), s).next, false) == Standard
  {
  }
}
