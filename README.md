# VectorGui widgets: hit-testing and the press/release latch

This project models the interaction core of the VectorGui widget layer (`gui.cs`).
A widget is a rectangle, a rounded rectangle or a circle. It has a position, a colour, a
visibility flag, and a boolean latch `wasPressed`. Given a mouse snapshot, a caller may ask
the widget whether the pointer hovers over it, whether it is pressed and whether it is
released, and may ask it to draw itself. The source does not fix the order of these
queries; `Frames` models the two orders of press and release within a frame.

The model has five modules:

- `Geometry` holds points, the three shapes and their hit regions. The box test includes all four edges. The disk test compares squared distance with the squared radius.
- `Input` holds the per-frame mouse snapshot: the pointer position and whether the left button is down.
- `Interaction` holds one step of the latch as pure functions. `PressStep` and `ReleaseStep` take the latch before a call and give the call's answer and the latch after it. `Respond` picks the step for a query.
- `Gui` holds the class `Component`. It has the fields of the source's `GuiComponent` plus a `shape` field for the subclass geometry. `IsPressed` and `IsReleased` are methods that update `wasPressed`, written as the source writes them. Each is proved equal to the matching `Interaction` step. `IsHovered` and `Draw` are functions of the fields.
- `Frames` has the answers to whole sequences of queries, with the properties the latch guarantees across frames. `Scenarios` has callers that drive fresh `Component` objects through a few frames.

The rectangle and the circle differ on purpose, as the source has them. A rectangle's
`IsPressed` is edge-triggered: it reports a press only on the call that sets the latch. A
circle's `IsPressed` is level-triggered: it reports "button down over the circle" on every
call. Both leave the latch equal to "button down and hovered". So if `IsPressed` is asked
before `IsReleased` in the same frame, `IsReleased` never fires, for either shape
(`Frames.PressFirstNeverReleases`). A release is seen only when the caller asks for it
before it asks for the press.

In `IsPressed`, a button held down away from the widget clears the latch for both shapes
(`gui.cs:75-79`, `gui.cs:159-160`).

## Model

| member | source | states |
|---|---|---|
| `Geometry.InBox` | gui.cs:94-97 | the rectangle's hit test: the pointer's offset from the corner lies within the size on both axes, edges included; only a box with non-negative size contains any point |
| `Geometry.InDisk` | gui.cs:153-154 | the circle's hit test: squared distance at most the squared radius, so the sign of the radius does not matter and the centre is always inside |
| `Geometry.Hovered` | gui.cs:92-155 | selects the hit test by shape: the box for a rectangle and for a rounded rectangle (which inherits it, whatever its corner radius), the disk for a circle; every hovered point lies in the shape's bounding box |
| `Geometry.DistanceSquared` | gui.cs:153 | the squared distance is never negative and is zero exactly when the two points coincide |
| `Geometry.BoxCornersHovered` | gui.cs:94-97 | the box test includes all four edges: every corner of a box with non-negative size is inside it |
| `Geometry.BoxExcludesOneBeyond` | gui.cs:94-97 | a point one unit outside any edge of the box is not hovered |
| `Geometry.BoxEmptyForNegativeSize` | gui.cs:94-97 | a box with a negative width or height is hovered nowhere |
| `Geometry.DiskBoundaryHovered` | gui.cs:153-154 | the centre, and the points at exactly the radius along each axis, are inside the circle (it includes its boundary) |
| `Geometry.DiskExcludesBeyondRadius` | gui.cs:153-154 | a point farther than the radius from the centre along either axis is outside the circle, including one unit beyond the boundary |
| `Geometry.DiskWithinBoundingBox` | gui.cs:153-154 | every point hovered by a circle is inside its bounding square of side twice the radius |
| `Interaction.PolicyOf` | gui.cs:157-161 | circles are level-triggered; rectangles and rounded rectangles (which inherit the rectangle's press) are edge-triggered |
| `Interaction.PressStep` | gui.cs:62-80 | after a press query the latch is "button down and hovered"; edge-triggered reports true exactly when that raises a clear latch; level-triggered reports the value it stores |
| `Interaction.ReleaseStep` | gui.cs:82-90 | a release fires iff the latch is set and the button is up, and then clears the latch; otherwise the latch is unchanged |
| `Interaction.Respond` | gui.cs:29-33 | a hover query reports the hit test and changes no state; a press query answers exactly as `PressStep` under the shape's policy; a release query answers as `ReleaseStep`; only a press that reports true can raise the latch |
| `Interaction.ReleaseAfterPressInSameFrame` | gui.cs:75-89 | a release query right after a press query on the same snapshot never fires, whatever the shape and latch |
| `Interaction.RoundedRespondsAsRectangle` | gui.cs:101-126 | a rounded rectangle answers every query as the same-size rectangle does, whatever its corner radius |
| `Gui.PrimitiveFor` | gui.cs:117-125 | the drawn primitive depicts the widget's shape (size, corner radius or radius) at its position and in its colour |
| `Gui.Component.Rectangle` | gui.cs:40-44 | a new rectangle has the given position, size, colour and visibility, and a clear latch |
| `Gui.Component.RoundedRectangle` | gui.cs:105-115 | a new rounded rectangle has the given geometry, corner radius, colour and visibility, and a clear latch |
| `Gui.Component.Circle` | gui.cs:132-136 | a new circle has the given centre, radius, colour and visibility, and a clear latch |
| `Gui.Component.IsHovered` | gui.cs:92-155 | hovered iff the pointer is in the box (rectangles) or the disk (circle); reads only position and shape, so it ignores visibility and the latch |
| `Gui.Component.IsPressed` | gui.cs:62-80 | sets `wasPressed` to "button down and hovered"; returns that value for a circle, and for a rectangle returns it only when the latch was clear on entry; changes nothing else |
| `Gui.Component.IsReleased` | gui.cs:82-90 | returns true iff `wasPressed` was set and the button is up, and then clears it; otherwise leaves it; changes nothing else |
| `Gui.Component.Draw` | gui.cs:49-60 | issues a primitive iff the widget is visible; the primitive depicts the widget's shape, position and colour |
| `Frames.Outputs` | gui.cs:29-33 | a sequence of queries gets one answer per query |
| `Frames.ReleasesNeverExceedPresses` | gui.cs:84-89 | over any sequence of queries, releases reported plus a latch still set never exceed presses reported plus a latch set at the start |
| `Frames.NoReleaseWithoutPress` | gui.cs:84-89 | a widget that starts with a clear latch and never reports a press never reports a release |
| `Frames.EdgeTriggeredHeld` | gui.cs:67-73 | a rectangle held down under the pointer for n frames reports the press on the first frame only (only if the latch was clear), and stays latched |
| `Frames.LevelTriggeredHeld` | gui.cs:159-160 | a circle held down under the pointer reports a press on every frame |
| `Frames.ThreeHeldFrames` | gui.cs:62-80 | three held frames give [true, false, false] for a rectangle and [true, true, true] for a circle |
| `Frames.RoundedTraceAsRectangle` | gui.cs:101-126 | over any sequence of queries a rounded rectangle gives the same answers and ends with the same latch as the same-size rectangle |
| `Frames.RunFrames` | gui.cs:29-31 | a run of frames gives one press/release report per frame |
| `Frames.PressFirstNeverReleases` | gui.cs:75-89 | a caller that asks for the press before the release in every frame never sees a release, for either shape |
| `Frames.ClickCycle` | gui.cs:62-90 | three held frames and one released frame, asked release-first: a rectangle reports press on frame 1 and release on frame 4; a circle reports press on frames 1-3 and release on frame 4 |
| `Scenarios.HoldRectangleThreeFrames` | gui.cs:62-80 | a new rectangle held under the pointer answers [true, false, false] |
| `Scenarios.HoldCircleThreeFrames` | gui.cs:157-161 | a new circle held under the pointer answers [true, true, true] |
| `Scenarios.ClickRectangle` | gui.cs:62-90 | a new rectangle pressed and released (release asked first) reports the press, then the release |
| `Scenarios.PressHiddenRectangle` | gui.cs:49-80 | an invisible rectangle draws nothing but still reports the press |
| `Scenarios.CompareRoundedWithRectangle` | gui.cs:101-115 | a rounded and a plain rectangle with the same geometry give the same press and release answers to the same snapshot |

## Left out

- Rendering: `SpriteBatch`, `PrimitiveBatch` and the `VectorGraphics` primitives are calls into a library outside this model. `Draw` returns the primitive it would hand over, or nothing.
- The MonoGame types `MouseState`, `ButtonState`, `Vector2` and `Color` are replaced by plain records. Only the left button is modelled, as a boolean. The colour is an opaque RGBA value.
- Floating point: widget positions, sizes, radii and corner radii are `float`/`Vector2` in the source. Here they are unbounded integers. Rounding in `Vector2.DistanceSquared` and in the box comparisons is not modelled, and neither is the 32-bit width of the mouse coordinates.
- The parameterless constructors (`gui.cs:24-25`, `gui.cs:46-47`) only supply fixed defaults and are not modelled.
- Property setters: `Position`, `Color`, `IsVisible` and `wasPressed` are public read-write properties. In the model they are public fields that callers assign directly. `Size`, `Radius` and `CornerRadius` live in the `shape` field, which callers assign whole. Assigning it can also change a widget's kind, and with it the press policy; no C# object can do that, because its subclass is fixed when it is built.
- The class hierarchy (`GuiComponent` → `GuiRectangle` → `GuiRoundedRectangle`, and `GuiCircle`) becomes one class with a `shape` field. Virtual dispatch on the subclass becomes a match on the shape.
- Slider, MenuWindow and DropDownMenu are not part of this model: their source is not among the files modelled.
