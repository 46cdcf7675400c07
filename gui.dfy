/** The widgets: a rectangle, a rounded rectangle and a circle, each with a position,
    a colour, a visibility flag and the `wasPressed` latch that its press and release
    queries update once per call. */
module Gui {
  import opened Geometry
  import opened Input
  import opened Interaction

  /** An RGBA colour; the widgets only pass it on to the renderer. */
  datatype Color = Color(r: int, g: int, b: int, a: int)

  datatype Option<T> = None | Some(value: T)

  /** The drawing command a widget hands to the rendering backend. */
  datatype Primitive =
    | RectanglePrimitive(position: Point, size: Point, color: Color)
    | RoundedRectanglePrimitive(position: Point, size: Point, cornerRadius: int, color: Color)
    | CirclePrimitive(position: Point, radius: int, color: Color)

  /** The shape a primitive depicts. */
  function DepictedShape(p: Primitive): (shape: Shape) {
    match p
    case RectanglePrimitive(_, size, _) => RectangleShape(size)
    case RoundedRectanglePrimitive(_, size, cornerRadius, _) => RoundedRectangleShape(size, cornerRadius)
    case CirclePrimitive(_, radius, _) => CircleShape(radius)
  }

  /** The primitive that draws `shape` at `position` in `color`: it depicts exactly that
      shape, corner radius included, at that place and in that colour. */
  function PrimitiveFor(shape: Shape, position: Point, color: Color): (p: Primitive)
    ensures DepictedShape(p) == shape
    ensures p.position == position && p.color == color
  {
    match shape
    case RectangleShape(size) => RectanglePrimitive(position, size, color)
    case RoundedRectangleShape(size, cornerRadius) => RoundedRectanglePrimitive(position, size, cornerRadius, color)
    case CircleShape(radius) => CirclePrimitive(position, radius, color)
  }

  class Component {
    var position: Point
    var color: Color
    var isVisible: bool
    var wasPressed: bool
    /** Size, corner radius or radius, and with them the widget's kind; callers that
        assign it whole can change the kind, which a C# object cannot. */
    var shape: Shape

    constructor Rectangle(position: Point, size: Point, color: Color, isVisible: bool := true)
      ensures this.position == position && this.color == color && this.isVisible == isVisible
      ensures shape == RectangleShape(size)
      ensures !wasPressed
    {
      this.position := position;
      this.color := color;
      this.isVisible := isVisible;
      this.wasPressed := false;
      this.shape := RectangleShape(size);
    }

    constructor RoundedRectangle(position: Point, size: Point, cornerRadius: int, color: Color, isVisible: bool := true)
      ensures this.position == position && this.color == color && this.isVisible == isVisible
      ensures shape == RoundedRectangleShape(size, cornerRadius)
      ensures !wasPressed
    {
      this.position := position;
      this.color := color;
      this.isVisible := isVisible;
      this.wasPressed := false;
      this.shape := RoundedRectangleShape(size, cornerRadius);
    }

    constructor Circle(position: Point, radius: int, color: Color, isVisible: bool := true)
      ensures this.position == position && this.color == color && this.isVisible == isVisible
      ensures shape == CircleShape(radius)
      ensures !wasPressed
    {
      this.position := position;
      this.color := color;
      this.isVisible := isVisible;
      this.wasPressed := false;
      this.shape := CircleShape(radius);
    }

    /** Hit-test: depends on the geometry only, never on visibility or the latch. */
    function IsHovered(mouse: MouseState): (hovered: bool)
      reads this`position, this`shape
      ensures !shape.CircleShape? ==> (hovered <==> InBox(mouse.position, position, shape.size))
      ensures shape.CircleShape? ==> (hovered <==> InDisk(mouse.position, position, shape.radius))
    {
      Hovered(shape, position, mouse.position)
    }

    /** Rectangles latch and report the press once; circles store and report
        "button down over the circle" on every call. */
    method IsPressed(mouse: MouseState) returns (pressed: bool)
      modifies this`wasPressed
      ensures wasPressed == (mouse.leftDown && IsHovered(mouse))
      ensures pressed == if shape.CircleShape? then wasPressed else wasPressed && !old(wasPressed)
      ensures Step(pressed, wasPressed) == Respond(shape, position, old(wasPressed), Press(mouse))
    {
      match shape {
        case CircleShape(_) =>
          wasPressed := mouse.leftDown && IsHovered(mouse);
          pressed := wasPressed;
        case _ =>
          if mouse.leftDown && IsHovered(mouse) {
            if !wasPressed {
              wasPressed := true;
              pressed := true;
            } else {
              pressed := false;
            }
          } else {
            wasPressed := false;
            pressed := false;
          }
      }
    }

    /** The same for every shape: fires once when the latch is set and the button is up. */
    method IsReleased(mouse: MouseState) returns (released: bool)
      modifies this`wasPressed
      ensures released == (old(wasPressed) && !mouse.leftDown)
      ensures wasPressed == (old(wasPressed) && !released)
      ensures Step(released, wasPressed) == Respond(shape, position, old(wasPressed), Release(mouse))
    {
      if wasPressed && !mouse.leftDown {
        wasPressed := false;
        released := true;
      } else {
        released := false;
      }
    }

    /** The command `Draw` issues: one primitive for a visible widget, none otherwise. */
    function Draw(): (command: Option<Primitive>)
      reads this
      ensures command.Some? <==> isVisible
      ensures command.Some? ==> DepictedShape(command.value) == shape
      ensures command.Some? ==> command.value.position == position && command.value.color == color
    {
      if isVisible then Some(PrimitiveFor(shape, position, color)) else None
    }
  }
}
