/**
 * Sequences of events fed to the gesture state machine, and what the case
 * table promises about whole gestures: press-release shapes, the three-click
 * Bezier, the drag-type-click text box, the idle canvas and the invariant that
 * no stray Bezier gesture is ever pending.
 */
module GestureRuns {

  import opened Wrappers
  import opened Geometry
  import A = Actions
  import P = Paintings
  import opened Gesture

  /** One event with the cursor position and the style live when it arrives. */
  datatype Input = Input(event: Event, cursor: Option<Point>, style: Style)

  /** A run either panics at some input or ends in a pending gesture with the paintings it committed. */
  datatype Trace =
    | Crashed(reason: Panic, at: nat)
    | Ran(pending: Option<Pending>, committed: seq<P.Painting>)

  function Committed(painting: Option<P.Painting>): seq<P.Painting>
  {
    if painting.Some? then [painting.value] else []
  }

  /** Feeds the inputs to `Step` one at a time; a panic ends the run. */
  function Run(p: Option<Pending>, inputs: seq<Input>): (t: Trace)
    ensures t.Ran? ==> |t.committed| <= |inputs|
    ensures t.Crashed? ==> t.at < |inputs|
    decreases |inputs|
  {
    if inputs == [] then Ran(p, [])
    else
      match Step(p, inputs[0].event, inputs[0].cursor, inputs[0].style)
      case Aborted(why) => Crashed(why, 0)
      case Done(next, _, painting) =>
        match Run(next, inputs[1..])
        case Crashed(why, k) => Crashed(why, k + 1)
        case Ran(last, rest) => Ran(last, Committed(painting) + rest)
  }

  /** One step never stores a Bezier gesture that was not already there. */
  lemma StepKeepsNoBezierPending(p: Option<Pending>, ev: Event, cursor: Option<Point>, s: Style)
    requires NoBezierPending(p)
    ensures Step(p, ev, cursor, s).Done? ==> NoBezierPending(Step(p, ev, cursor, s).next)
  {
  }

  /** From any state without a stray Bezier gesture, no run ever creates one. */
  lemma {:induction false} RunKeepsNoBezierPending(p: Option<Pending>, inputs: seq<Input>)
    requires NoBezierPending(p)
    ensures Run(p, inputs).Ran? ==> NoBezierPending(Run(p, inputs).pending)
    decreases |inputs|
  {
    if inputs != [] {
      var i := inputs[0];
      StepKeepsNoBezierPending(p, i.event, i.cursor, i.style);
      var o := Step(p, i.event, i.cursor, i.style);
      if o.Done? {
        RunKeepsNoBezierPending(o.next, inputs[1..]);
      }
    }
  }

  /** With nothing pending, events that all arrive with the cursor outside the canvas change nothing. */
  lemma {:induction false} IdleOutsideCanvas(inputs: seq<Input>)
    requires forall i :: 0 <= i < |inputs| ==> inputs[i].cursor == None
    ensures Run(None, inputs) == Ran(None, [])
    decreases |inputs|
  {
    if inputs != [] {
      IdleOutsideCanvas(inputs[1..]);
    }
  }

  /** The buffer edit one key press makes while typing (key presses without text change nothing). */
  function EditText(text: string, i: Input): string
  {
    match i.event
    case KeyPressed(Some(key)) =>
      if i.cursor.Some? && i.style.action == A.Tool(A.Text) && key == Backspace then Pop(text)
      else text + key
    case _ => text
  }

  /** The buffer after a sequence of key presses. */
  function Typed(text: string, inputs: seq<Input>): string
    decreases |inputs|
  {
    if inputs == [] then text else Typed(EditText(text, inputs[0]), inputs[1..])
  }

  /**
   * Key presses alone never end a typing gesture, never move its box and never
   * commit: they only edit the buffer, whatever the action and cursor.
   */
  lemma {:induction false} KeysOnlyEditText(from: Point, to: Point, text: string, inputs: seq<Input>)
    requires forall i :: 0 <= i < |inputs| ==> inputs[i].event.KeyPressed?
    ensures Run(Some(Text(Typing(from, to, text))), inputs) == Ran(Some(Text(Typing(from, to, Typed(text, inputs)))), [])
    decreases |inputs|
  {
    if inputs != [] {
      KeysOnlyEditText(from, to, EditText(text, inputs[0]), inputs[1..]);
    }
  }

  /** A left press over the canvas at `at`. */
  function Press(at: Point, s: Style): Input
  {
    Input(ButtonPressed(Left), Some(at), s)
  }

  /** A left release over the canvas at `at`. */
  function Release(at: Point, s: Style): Input
  {
    Input(ButtonReleased(Left), Some(at), s)
  }

  /** A key press producing `key`, with the cursor over the canvas at `at`. */
  function Key(key: string, at: Point, s: Style): Input
  {
    Input(KeyPressed(Some(key)), Some(at), s)
  }

  /**
   * Every action other than the text tool and the Bezier shape draws with a
   * press and a release: one painting built by `Painting::new` from the two
   * points, and nothing left pending.
   */
  lemma {:induction false} TwoPointGesture(s: Style, from: Point, to: Point)
    requires s.action != A.Tool(A.Text) && s.action != A.Shape(A.Bezier)
    ensures Run(None, [Press(from, s), Release(to, s)]) == Ran(None, [P.New(s.action, from, to, s.color, s.scale)])
  {
    var inputs := [Press(from, s), Release(to, s)];
    assert inputs[1..] == [Release(to, s)];
    assert Run(Some(Drawing(DrawingPending.One(from))), inputs[1..]) == Ran(None, [P.New(s.action, from, to, s.color, s.scale)]);
  }

  /**
   * The Bezier takes a press (start), a release (end) and a press (control
   * point); a second release before the control point changes nothing.
   */
  lemma {:induction false} BezierGesture(s: Style, from: Point, to: Point, again: Point, control: Point)
    requires s.action == A.Shape(A.Bezier)
    ensures Run(None, [Press(from, s), Release(to, s), Release(again, s), Press(control, s)])
      == Ran(None, [P.Bezier(from, to, control, s.color, s.scale)])
    ensures Run(None, [Press(from, s), Release(to, s), Release(again, s)])
      == Ran(Some(Drawing(Two(from, to))), [])
  {
    var two := Some(Drawing(Two(from, to)));
    var inputs := [Press(from, s), Release(to, s), Release(again, s), Press(control, s)];
    assert inputs[1..][1..][1..] == [Press(control, s)];
    assert Run(two, inputs[1..][1..][1..]) == Ran(None, [P.Bezier(from, to, control, s.color, s.scale)]);
    assert Run(two, inputs[1..][1..]) == Ran(None, [P.Bezier(from, to, control, s.color, s.scale)]);
    assert Run(Some(Drawing(DrawingPending.One(from))), inputs[1..]) == Ran(None, [P.Bezier(from, to, control, s.color, s.scale)]);
    var short := inputs[..3];
    assert short[1..][1..] == [Release(again, s)];
    assert Run(two, short[1..][1..]) == Ran(two, []);
    assert Run(Some(Drawing(DrawingPending.One(from))), short[1..]) == Ran(two, []);
  }

  /**
   * The text box: press at one corner, release at the other, type "A", "B" and
   * a backspace with the cursor over the canvas, then press outside the box:
   * one text painting holding "A", framed by the two corners.
   */
  lemma {:induction false} TextGesture(s: Style, from: Point, to: Point, at: Point, outside: Point)
    requires s.action == A.Tool(A.Text) && !InBox(from, to, outside)
    ensures Run(None, [Press(from, s), Release(to, s), Key("A", at, s), Key("B", at, s), Key(Backspace, at, s), Press(outside, s)])
      == Ran(None, [P.Text(from, to, "A", s.color, s.scale)])
  {
    var done := Ran(None, [P.Text(from, to, "A", s.color, s.scale)]);
    var inputs := [Press(from, s), Release(to, s), Key("A", at, s), Key("B", at, s), Key(Backspace, at, s), Press(outside, s)];
    var keys := inputs[2..5];
    assert inputs[1..][1..] == keys + [Press(outside, s)];
    assert Typed("", keys) == "A" by {
      assert keys == [Key("A", at, s), Key("B", at, s), Key(Backspace, at, s)];
      assert keys[1..][1..] == [Key(Backspace, at, s)];
      assert EditText("", keys[0]) == "A";
      assert EditText("A", keys[1]) == "AB";
      assert EditText("AB", keys[1..][1..][0]) == "A";
      assert keys[1..][1..][1..] == [];
      assert Typed("AB", keys[1..][1..]) == "A";
      assert Typed("A", keys[1..]) == "A";
    }
    KeysOnlyEditText(from, to, "", keys);
    KeysThenPress(from, to, "", keys, outside, s);
    assert Run(Some(Text(TextPending.One(from))), inputs[1..]) == done;
  }

  /** Key presses followed by a left press: the press acts on the edited box. */
  lemma {:induction false} KeysThenPress(from: Point, to: Point, text: string, keys: seq<Input>, at: Point, s: Style)
    requires forall i :: 0 <= i < |keys| ==> keys[i].event.KeyPressed?
    ensures Run(Some(Text(Typing(from, to, text))), keys + [Press(at, s)])
      == Run(Some(Text(Typing(from, to, Typed(text, keys)))), [Press(at, s)])
    decreases |keys|
  {
    if keys != [] {
      assert (keys + [Press(at, s)])[1..] == keys[1..] + [Press(at, s)];
      KeysThenPress(from, to, EditText(text, keys[0]), keys[1..], at, s);
    } else {
      assert keys + [Press(at, s)] == [Press(at, s)];
    }
  }
}
