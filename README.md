# Paint canvas gesture model

A Dafny model of the core of iced's `paint` example application
(`examples/paint/src/main.rs`): the canvas gesture state machine that turns
left presses, left releases and key presses into committed drawings, the
drawing data model it builds on, and the application's message handler that
keeps the canvas style in step with the toolbar.

- `wrappers.dfy` — `Option`.
- `palette.dfy` (`Palette`) — `PaintColor` and `PaintColor::opacity`.
- `actions.dfy` (`Actions`) — `Shapes`, `Tool`, `Action`, `has_opacity`, `has_scale`.
- `geometry.dfy` (`Geometry`) — points and the typing-box hit test.
- `paintings.dfy` (`Paintings`) — `Painting` and `Painting::new`.
- `gesture.dfy` (`Gesture`) — the pending-gesture types, events, and `Step`: the
  update function written as a case table organised by pending gesture;
  `mouse_interaction`.
- `canvas.dfy` (`Canvas`) — `canvas::State` with its setters, and the class
  `PaintingCanvas` whose `pending` field is the `Option<Pending>` iced keeps for
  the canvas. `Update` follows the source's `match` arm by arm and mutates
  `pending` in place; its contract is that it agrees with `Step`.
- `gesture_cases.dfy` (`GestureCases`) — the case table one event at a time.
- `gesture_runs.dfy` (`GestureRuns`) — `Run` feeds a sequence of events to
  `Step`; whole gestures (two-point shapes, Bezier, text box) and invariants
  over any run.
- `host.dfy` (`Host`) — `Message`, `Paint::default` and `Paint::update`.

Modelling choices:

- Coordinates, colour channels, opacity and scale are `f32` in the source. The
  logic only copies them, and compares coordinates in the box test, so they are
  `real`s here (no rounding, no NaN).
- The box test (main.rs:620-624) is `Geometry.InBox`. It assumes iced's
  `Rectangle::contains` is half-open: `x <= p.x < x + width`, and the same for
  `y`. A box dragged up or to the left has a negative size and contains no point,
  so any left press over the canvas under the text tool commits it
  (`Geometry.InvertedBoxIsEmpty`).
- A `panic!` is the explicit outcome `Aborted(reason)` / `Panicked(reason)`. The
  pending gesture is left as it was, because the source never touches it before
  panicking.
- `DrawingPending::Bezier` is modelled but nothing builds it. Its arms
  (main.rs:754-756, 780-794) are kept, and `NoBezierPending` is proved to hold on
  every run from a fresh canvas. The typing arm of the press handler
  (main.rs:795-821) is unreachable after the first two arms; `Update` carries
  `assert false` there, proving that it is dead.
- The canvas stores the palette entry (`PaintColor`), not iced's RGBA `Color`
  built from it. `State::default()`'s colour is taken to be iced's all-zero
  `Color::default()`, written `Custom(Rgba(0, 0, 0, 0))`.
- The render cache is a flag, `cacheFilled`. `State::clear` empties it, and
  nothing in the model fills it.
- `view` maps every committed painting to `Message::None` (main.rs:506).
  `drawings` is therefore only ever cleared. `Host.Paint.Valid` states this, and
  `Receive` shows that a committed painting changes nothing.

Behaviour of the code that a reader might expect to be otherwise, modelled as written:

- Backspace deletes only when the cursor is over the canvas and the text tool is
  active. Otherwise `"\u{8}"` is appended to the buffer like any other text.
- A press with the cursor outside the canvas never commits a text box.
- The three inconsistent pending/action combinations panic; they are not reset.

## Model

| member | source | states |
|---|---|---|
| Palette.WithOpacity | examples/paint/src/main.rs:63-68 | only a black entry changes, and it then has exactly the given opacity; every other colour comes back unchanged |
| Palette.WithOpacityLastWins | examples/paint/src/main.rs:63-68 | setting the opacity twice equals setting it once, to the later value |
| Palette.WithOpacityOwnAlpha | examples/paint/src/main.rs:63-68 | setting a black entry's own opacity changes nothing |
| Actions.HasOpacity | examples/paint/src/main.rs:133-140 | false exactly for `Select` and the eraser tool |
| Actions.HasScale | examples/paint/src/main.rs:142-148 | true exactly for the tools |
| Geometry.InvertedBoxIsEmpty | examples/paint/src/main.rs:620-624 | a typing box dragged up or left contains no point |
| Geometry.AnchorInBox | examples/paint/src/main.rs:620-624 | the anchor corner is inside the box exactly when the box has positive width and height |
| Paintings.New | examples/paint/src/main.rs:970-1032 | the painting is of the kind the action draws; it keeps the scale and, except for the eraser, the colour; it records `from` then `to` (Bezier: `to` also as control), and nothing for brush, pencil and eraser; text gets the fixed placeholder |
| Gesture.Pop | examples/paint/src/main.rs:603-604 | popping an empty buffer leaves it empty; otherwise the result plus the last character is the buffer |
| Gesture.Step | examples/paint/src/main.rs:580-848 | an event aborts exactly on a left release over the canvas with an inconsistent pending gesture; a committed painting always comes with `Captured` and clears the gesture; `Ignored` always leaves the gesture unchanged and commits nothing; with the cursor off the canvas and no typing gesture, every event is ignored |
| Gesture.MouseInteraction | examples/paint/src/main.rs:887-905 | text cursor exactly while a text box is anchored and the cursor is over the canvas; default pointer exactly when off the canvas; crosshair otherwise |
| Canvas.State.constructor | examples/paint/src/main.rs:533-539 | a fresh canvas state: empty cache, default action, zero colour and zero scale |
| Canvas.State.Clear | examples/paint/src/main.rs:542-544 | the cache is emptied and the style is untouched |
| Canvas.State.SetAction | examples/paint/src/main.rs:546-548 | sets the action only |
| Canvas.State.SetColor | examples/paint/src/main.rs:550-552 | sets the colour only |
| Canvas.State.SetScale | examples/paint/src/main.rs:554-556 | sets the scale only |
| Canvas.PaintingCanvas.constructor | examples/paint/src/main.rs:578 | a fresh canvas has no pending gesture |
| Canvas.PaintingCanvas.Update | examples/paint/src/main.rs:580-848 | the arm-ordered update returns what the case table `Step` gives for the old pending gesture and the live style, sets `pending` to its new gesture (unchanged on a panic), and never stores a Bezier gesture |
| GestureCases.PressWhenIdle | examples/paint/src/main.rs:823-838 | a left press over an idle canvas anchors a text box under the text tool, a drawing otherwise, and is captured without a painting |
| GestureCases.OnlyPressStartsGesture | examples/paint/src/main.rs:823-847 | with nothing pending, every event but a left press over the canvas is ignored |
| GestureCases.ReleaseCommitsDrawing | examples/paint/src/main.rs:720-749 | a release on a one- or two-point drawing commits `Painting::new` from its first point to the cursor and clears the gesture, unless the action is the text tool or the Bezier shape |
| GestureCases.BezierSteps | examples/paint/src/main.rs:695-778 | under the Bezier shape: release on `One` gives `Two` with the cursor; release on `Two` is ignored; press on `Two` commits the Bezier with the cursor as control point |
| GestureCases.TextToolRelease | examples/paint/src/main.rs:676-691 | under the text tool, a release on an anchored box starts typing with an empty buffer; a release with nothing pending is ignored |
| GestureCases.BackspaceDeletes | examples/paint/src/main.rs:596-615 | over the canvas under the text tool, backspace removes the last character (nothing on an empty buffer), keeps the box and is captured |
| GestureCases.KeyTextAppended | examples/paint/src/main.rs:596-665 | any other key text, and backspace off the canvas or under another action, is appended verbatim, keeping the box |
| GestureCases.TypingPress | examples/paint/src/main.rs:617-668 | a left press while typing commits the text painting framed by the box exactly when the cursor is over the canvas, the text tool is active and the cursor is outside the box; otherwise the gesture is kept and the event ignored |
| GestureCases.AbortReasons | examples/paint/src/main.rs:688-752 | which panic an inconsistent release raises: drawing under the text tool, an anchored text box under Bezier, or one under any other action |
| GestureCases.TypingKeepsBox | examples/paint/src/main.rs:587-668 | no event aborts a typing gesture or moves its box; it either stays typing or commits the text framed by the box |
| GestureCases.AnchoringShowsTextCursor | examples/paint/src/main.rs:887-905 | after a press under the text tool, the pointer over the canvas is the text cursor, and the default pointer elsewhere |
| GestureRuns.Run | examples/paint/src/main.rs:580-848 | a run of n events commits at most n paintings, and a panic is reported at one of them |
| GestureRuns.StepKeepsNoBezierPending | examples/paint/src/main.rs:1074-1078 | no single event stores a `DrawingPending::Bezier` |
| GestureRuns.RunKeepsNoBezierPending | examples/paint/src/main.rs:1074-1078 | no run from a state without a Bezier gesture ever stores one, so the arms that handle it are dead |
| GestureRuns.IdleOutsideCanvas | examples/paint/src/main.rs:844-847 | with nothing pending, events that arrive with the cursor off the canvas leave nothing pending and commit nothing |
| GestureRuns.KeysOnlyEditText | examples/paint/src/main.rs:596-665 | key presses while typing only edit the buffer, as the reference fold `Typed` says, and keep the box |
| GestureRuns.KeysThenPress | examples/paint/src/main.rs:596-668 | a left press after a run of key presses acts on the typing gesture with the buffer those keys produced (`Typed`) and the same box |
| GestureRuns.TwoPointGesture | examples/paint/src/main.rs:720-838 | for every action but text and Bezier, press then release commits exactly `Painting::new(action, from, to, …)` and clears the gesture |
| GestureRuns.BezierGesture | examples/paint/src/main.rs:695-778 | press, release, release, press commits one Bezier with start, end and control point; before the last press nothing is committed and `Two` is pending |
| GestureRuns.TextGesture | examples/paint/src/main.rs:587-838 | press, release, type "A", "B", backspace, press outside the box commits one text painting holding "A" framed by the two corners |
| Host.DefaultPalette | examples/paint/src/main.rs:184-203 | eighteen entries, the second of which is black at the given opacity |
| Host.PaintingMessage | examples/paint/src/main.rs:506 | every painting the canvas commits is turned into `Message::None` |
| Host.Paint.constructor | examples/paint/src/main.rs:178-219 | the default application: brush, opaque black, opacity and scale 1, and a canvas already synchronised with that style |
| Host.Paint.Update | examples/paint/src/main.rs:475-499 | each message sets its own part of the style and forwards it: the canvas gets the action, the scale, or the host colour at the host opacity (on a colour or an opacity change); `Clear` empties the drawings and the cache; the invariant that the canvas paints with the host style and `drawings` stays empty is kept |
| Host.Paint.Receive | examples/paint/src/main.rs:501-506 | a painting committed by the canvas reaches the host as `Message::None` and changes neither the host nor the canvas state |

## Left out

- Rendering: `draw`, the cache's geometry, `Painting::draw_all`, `Pending::draw`,
  `TextPending::draw` and `DrawingPending::draw`. These are renderer calls with
  floating-point geometry.
- UI layout and styling: `side_panel`, `colors`, `toolbar`, `view` (except its
  mapping of paintings to `Message::None`), the `styles` module and `main`. This
  is widget plumbing.
- `From<PaintColor> for Color` (main.rs:77-98): a table of RGBA constants built
  by iced's `color!` macro. The canvas keeps the palette entry instead of its
  RGBA value.
- `From<Color> for PaintColor` (main.rs:100-104): wraps an iced colour as
  `PaintColor::Custom`. No operation of this model uses it; the `Custom`
  variant holds the colour as an `Rgba` value.
- `PaintColor::ALL` (main.rs:46-61): a constant list that nothing uses.
- iced's `Event`, `Cursor::position_in`, `Cursor::is_over` and
  `Rectangle::contains` are not part of this model. They are replaced by the
  `Event` datatype, an `Option<Point>` or `bool` input, and the `InBox`
  predicate with the half-open reading stated above.
- `f32` rounding in the box test (`from.x + (to.x - from.x)`) is not modelled.
- What iced does after a panic (the process aborts) is not modelled; the model
  only reports the panic and keeps the state.
