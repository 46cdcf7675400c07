/** The per-frame input snapshot a widget inspects. */
module Input {
  import opened Geometry

  /** The pointer position and whether the left button is held down. */
  datatype MouseState = MouseState(position: Point, leftDown: bool)
}
