/** Screen geometry: points, the shapes a widget can take, and their hit regions.
    Coordinates are integers; y grows downwards as on screen. */
module Geometry {

  /** A point, or an extent when used as a size. */
  datatype Point = Point(x: int, y: int)

  /** The geometry of each widget kind. The corner radius of a rounded rectangle
      is carried for drawing only and takes no part in hit-testing. */
  datatype Shape =
    | RectangleShape(size: Point)
    | RoundedRectangleShape(size: Point, cornerRadius: int)
    | CircleShape(radius: int)

  function Abs(n: int): (a: nat)
    ensures a == n || a == -n
  {
    if n < 0 then -n else n
  }

  /** The boundary-inclusive axis-aligned box spanned by `position` and `position + size`:
      the pointer's offset from the corner lies within the size on both axes, which is
      possible only when neither side of the size is negative. */
  function InBox(p: Point, position: Point, size: Point): (inside: bool)
    ensures inside <==> 0 <= p.x - position.x <= size.x && 0 <= p.y - position.y <= size.y
    ensures inside ==> size.x >= 0 && size.y >= 0
  {
    position.x <= p.x <= position.x + size.x && position.y <= p.y <= position.y + size.y
  }

  lemma SquareFacts(n: int)
    ensures n * n >= 0
    ensures n * n == 0 <==> n == 0
  {
    if n != 0 {
      assert Abs(n) * Abs(n) >= Abs(n) * 1;
    }
  }

  /** The squared Euclidean distance between two points. */
  function DistanceSquared(a: Point, b: Point): (d: int)
    ensures d >= 0
    ensures d == 0 <==> a == b
  {
    var dx, dy := a.x - b.x, a.y - b.y;
    SquareFacts(dx);
    SquareFacts(dy);
    dx * dx + dy * dy
  }

  /** The boundary-inclusive disk of the given radius around `center`. Only the size of
      the radius matters, and the centre lies in every disk, even one of radius zero. */
  function InDisk(p: Point, center: Point, radius: int): (inside: bool)
    ensures inside <==> DistanceSquared(p, center) <= Abs(radius) * Abs(radius)
    ensures p == center ==> inside
  {
    SquareFacts(radius);
    assert Abs(radius) * Abs(radius) == radius * radius;
    DistanceSquared(p, center) <= radius * radius
  }

  /** The corner of the smallest box around a shape placed at `position`. */
  function BoundsOrigin(shape: Shape, position: Point): (corner: Point) {
    match shape
    case CircleShape(radius) => Point(position.x - Abs(radius), position.y - Abs(radius))
    case _ => position
  }

  /** The size of the smallest box around a shape. */
  function BoundsSize(shape: Shape): (extent: Point) {
    match shape
    case CircleShape(radius) => Point(2 * Abs(radius), 2 * Abs(radius))
    case _ => shape.size
  }

  /** The hit region of a shape placed at `position`: a box for both kinds of rectangle,
      whatever the corner radius, and a disk centred on `position` for a circle. Every
      hovered point lies in the shape's bounding box. */
  function Hovered(shape: Shape, position: Point, p: Point): (hovered: bool)
    ensures !shape.CircleShape? ==> (hovered <==> InBox(p, position, shape.size))
    ensures shape.CircleShape? ==> (hovered <==> InDisk(p, position, shape.radius))
    ensures hovered ==> InBox(p, BoundsOrigin(shape, position), BoundsSize(shape))
  {
    match shape
    case RectangleShape(size) => InBox(p, position, size)
    case RoundedRectangleShape(size, _) => InBox(p, position, size)
    case CircleShape(radius) =>
      if InDisk(p, position, radius) then
        DiskWithinBoundingBox(p, position, radius);
        true
      else
        false
  }

  /** All four corners of a box with a non-negative size lie in it. */
  lemma BoxCornersHovered(position: Point, size: Point)
    requires size.x >= 0 && size.y >= 0
    ensures InBox(position, position, size)
    ensures InBox(Point(position.x + size.x, position.y), position, size)
    ensures InBox(Point(position.x, position.y + size.y), position, size)
    ensures InBox(Point(position.x + size.x, position.y + size.y), position, size)
  {
  }

  /** A point one unit beyond any of the four edges is outside the box. */
  lemma BoxExcludesOneBeyond(position: Point, size: Point, p: Point)
    requires p.x == position.x - 1 || p.x == position.x + size.x + 1
          || p.y == position.y - 1 || p.y == position.y + size.y + 1
    ensures !InBox(p, position, size)
  {
  }

  /** A box with a negative width or height contains no point at all. */
  lemma BoxEmptyForNegativeSize(position: Point, size: Point, p: Point)
    requires size.x < 0 || size.y < 0
    ensures !InBox(p, position, size)
  {
  }

  /** The centre and the four points at exactly `radius` along the axes are in the disk. */
  lemma DiskBoundaryHovered(center: Point, radius: int)
    ensures InDisk(center, center, radius)
    ensures InDisk(Point(center.x + radius, center.y), center, radius)
    ensures InDisk(Point(center.x - radius, center.y), center, radius)
    ensures InDisk(Point(center.x, center.y + radius), center, radius)
    ensures InDisk(Point(center.x, center.y - radius), center, radius)
  {
    SquareFacts(radius);
  }

  /** If |a| exceeds |b| then so does its square. */
  lemma SquareDominates(a: int, b: int)
    requires Abs(a) > Abs(b)
    ensures a * a > b * b
  {
    calc {
      a * a;
    ==
      Abs(a) * Abs(a);
    >  { assert Abs(a) * Abs(a) - Abs(a) * Abs(b) == Abs(a) * (Abs(a) - Abs(b)); }
      Abs(a) * Abs(b);
    >= { assert Abs(a) * Abs(b) - Abs(b) * Abs(b) == Abs(b) * (Abs(a) - Abs(b)); }
      Abs(b) * Abs(b);
    ==
      b * b;
    }
  }

  /** A point farther than |radius| from the centre along either axis is outside the disk;
      in particular the points one unit beyond the boundary on the axes are. */
  lemma DiskExcludesBeyondRadius(p: Point, center: Point, radius: int)
    requires Abs(p.x - center.x) > Abs(radius) || Abs(p.y - center.y) > Abs(radius)
    ensures !InDisk(p, center, radius)
  {
    var dx, dy := p.x - center.x, p.y - center.y;
    SquareFacts(dx);
    SquareFacts(dy);
    if Abs(dx) > Abs(radius) {
      SquareDominates(dx, radius);
    } else {
      SquareDominates(dy, radius);
    }
  }

  /** The disk lies within its bounding box, the square of side 2|radius| centred on it. */
  lemma DiskWithinBoundingBox(p: Point, center: Point, radius: int)
    requires InDisk(p, center, radius)
    ensures InBox(p, Point(center.x - Abs(radius), center.y - Abs(radius)),
                  Point(2 * Abs(radius), 2 * Abs(radius)))
  {
    if Abs(p.x - center.x) > Abs(radius) || Abs(p.y - center.y) > Abs(radius) {
      DiskExcludesBeyondRadius(p, center, radius);
    }
  }
}
