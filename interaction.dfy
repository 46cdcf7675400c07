/** One step of the press/release latch that every widget keeps in `wasPressed`.
    Each query a widget answers is a pure function from the latch before the call
    to the answer and the latch after it. */
module Interaction {
  import opened Geometry
  import opened Input

  /** Rectangles (plain and rounded) report a press once per press; circles report
      it on every call while the button is held over them. */
  datatype PressPolicy = EdgeTriggered | LevelTriggered

  /** What one query returns, and the latch it leaves behind. */
  datatype Step = Step(fired: bool, latch: bool)

  function PolicyOf(shape: Shape): (policy: PressPolicy)
    ensures policy == LevelTriggered <==> shape.CircleShape?
  {
    match shape
    case CircleShape(_) => LevelTriggered
    case _ => EdgeTriggered
  }

  /** `IsPressed`: both policies leave the latch equal to "button down over the widget";
      edge-triggered reports only the call that raises the latch, level-triggered
      reports whatever it stores. */
  function PressStep(policy: PressPolicy, latch: bool, down: bool, hovered: bool): (s: Step)
    ensures s.latch == (down && hovered)
    ensures policy == EdgeTriggered ==> (s.fired <==> s.latch && !latch)
    ensures policy == LevelTriggered ==> s.fired == s.latch
  {
    match policy
    case EdgeTriggered =>
      if down && hovered then
        if !latch then Step(true, true) else Step(false, true)
      else
        Step(false, false)
    case LevelTriggered =>
      var pressed := down && hovered;
      Step(pressed, pressed)
  }

  /** `IsReleased`: fires exactly when the latch is set and the button is up, and then
      clears the latch; otherwise it reports nothing and leaves the latch alone. */
  function ReleaseStep(latch: bool, down: bool): (s: Step)
    ensures s.fired <==> latch && !down
    ensures s.fired ==> !s.latch
    ensures !s.fired ==> s.latch == latch
  {
    if latch && !down then Step(true, false) else Step(false, latch)
  }

  /** A query a caller can put to a widget in a frame. */
  datatype Call = Hover(mouse: MouseState) | Press(mouse: MouseState) | Release(mouse: MouseState)

  /** The answer to one query by a widget of the given shape and position. */
  function Respond(shape: Shape, position: Point, latch: bool, call: Call): (s: Step)
    ensures call.Hover? ==> s.fired == Hovered(shape, position, call.mouse.position) && s.latch == latch
    ensures call.Release? ==> (s.fired <==> latch && !call.mouse.leftDown)
    ensures call.Release? ==> s.latch == (latch && !s.fired)
    ensures s.latch && !latch ==> call.Press? && s.fired
    ensures call.Press? ==> s == PressStep(PolicyOf(shape), latch, call.mouse.leftDown, Hovered(shape, position, call.mouse.position))
  {
    match call
    case Hover(m) => Step(Hovered(shape, position, m.position), latch)
    case Press(m) => PressStep(PolicyOf(shape), latch, m.leftDown, Hovered(shape, position, m.position))
    case Release(m) => ReleaseStep(latch, m.leftDown)
  }

  /** Whatever the shape and latch, `IsReleased` queried right after `IsPressed` on the
      same snapshot never fires: `IsPressed` leaves the latch set only while the
      button is down. */
  lemma ReleaseAfterPressInSameFrame(shape: Shape, position: Point, latch: bool, m: MouseState)
    ensures !Respond(shape, position, Respond(shape, position, latch, Press(m)).latch, Release(m)).fired
  {
  }

  /** A rounded rectangle answers every query exactly as the plain rectangle of the same
      size does, whatever its corner radius. */
  lemma RoundedRespondsAsRectangle(size: Point, cornerRadius: int, position: Point, latch: bool, call: Call)
    ensures Respond(RoundedRectangleShape(size, cornerRadius), position, latch, call)
         == Respond(RectangleShape(size), position, latch, call)
  {
  }
}
