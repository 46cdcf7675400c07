/** Callers that drive freshly created widgets through a few frames, as a game loop would,
    and what the widgets' contracts let them conclude. */
module Scenarios {
  import opened Geometry
  import opened Input
  import opened Gui

  /** A new rectangle held down under the pointer for three frames reports the press once. */
  method HoldRectangleThreeFrames(position: Point, size: Point, color: Color, mouse: MouseState)
    returns (presses: seq<bool>)
    requires mouse.leftDown && InBox(mouse.position, position, size)
    ensures presses == [true, false, false]
  {
    var button := new Component.Rectangle(position, size, color);
    var first := button.IsPressed(mouse);
    var second := button.IsPressed(mouse);
    var third := button.IsPressed(mouse);
    presses := [first, second, third];
  }

  /** A new circle held down under the pointer for three frames reports the press every frame. */
  method HoldCircleThreeFrames(center: Point, radius: int, color: Color, mouse: MouseState)
    returns (presses: seq<bool>)
    requires mouse.leftDown && InDisk(mouse.position, center, radius)
    ensures presses == [true, true, true]
  {
    var button := new Component.Circle(center, radius, color);
    var first := button.IsPressed(mouse);
    var second := button.IsPressed(mouse);
    var third := button.IsPressed(mouse);
    presses := [first, second, third];
  }

  /** Held for a frame and let go the next, querying release before press each frame:
      the rectangle reports the press on the first frame and the release on the second. */
  method ClickRectangle(position: Point, size: Point, color: Color, p: Point)
    returns (pressed: seq<bool>, released: seq<bool>)
    requires InBox(p, position, size)
    ensures pressed == [true, false] && released == [false, true]
  {
    var button := new Component.Rectangle(position, size, color);
    var down, up := MouseState(p, true), MouseState(p, false);
    var r1 := button.IsReleased(down);
    var p1 := button.IsPressed(down);
    var r2 := button.IsReleased(up);
    var p2 := button.IsPressed(up);
    pressed, released := [p1, p2], [r1, r2];
  }

  /** An invisible widget draws nothing yet is pressed exactly like a visible one. */
  method PressHiddenRectangle(position: Point, size: Point, color: Color, mouse: MouseState)
    returns (pressed: bool, drawn: Option<Primitive>)
    requires mouse.leftDown && InBox(mouse.position, position, size)
    ensures pressed && drawn == None
  {
    var button := new Component.Rectangle(position, size, color, false);
    pressed := button.IsPressed(mouse);
    drawn := button.Draw();
  }

  /** A rounded rectangle and a plain rectangle with the same position and size answer the
      same snapshot alike, whatever the corner radius; only what they draw differs. */
  method CompareRoundedWithRectangle(position: Point, size: Point, cornerRadius: int, color: Color, mouse: MouseState)
    returns (roundedPressed: bool, plainPressed: bool, roundedReleased: bool, plainReleased: bool)
    ensures roundedPressed == plainPressed && roundedReleased == plainReleased
    ensures roundedPressed == (mouse.leftDown && InBox(mouse.position, position, size))
  {
    var rounded := new Component.RoundedRectangle(position, size, cornerRadius, color);
    var plain := new Component.Rectangle(position, size, color);
    roundedPressed := rounded.IsPressed(mouse);
    plainPressed := plain.IsPressed(mouse);
    roundedReleased := rounded.IsReleased(mouse);
    plainReleased := plain.IsReleased(mouse);
  }
}
