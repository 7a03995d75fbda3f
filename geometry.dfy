// Core Graphics values used throughout the picker: points, sizes and rectangles
// over `real` (standing for CGFloat), plus the optional value Swift writes `T?`.

module Optionals {
  /** Swift's `Optional<T>`: `.none` or `.some(value)`. */
  datatype Option<T> = None | Some(value: T)
}

module Geometry {

  datatype Point = Point(x: real, y: real)

  datatype Size = Size(width: real, height: real) {
    predicate Valid() { width >= 0.0 && height >= 0.0 }
  }

  /**
   * A CGRect kept as origin and size. Every rect the model builds has a
   * non-negative width and height (`Valid`), so origin.x is minX and origin.y
   * is minY, as CoreGraphics has it for standardized rects.
   */
  datatype Rect = Rect(x: real, y: real, width: real, height: real) {
    predicate Valid() { width >= 0.0 && height >= 0.0 }

    function MinX(): real { x }
    function MaxX(): real { x + width }
    function MinY(): real { y }
    function MaxY(): real { y + height }
    function MidY(): real { y + height / 2.0 }

    /** CGRect.contains(point): the left and top edges belong to the rect, the right and bottom do not. */
    predicate Contains(p: Point) {
      MinX() <= p.x < MaxX() && MinY() <= p.y < MaxY()
    }

    /**
     * CGRect.intersects, taken here as an overlap of positive area: rects that
     * only touch, and zero-size rects such as CGRect.zero, intersect nothing.
     */
    predicate Intersects(other: Rect) {
      Max(MinX(), other.MinX()) < Min(MaxX(), other.MaxX()) &&
      Max(MinY(), other.MinY()) < Min(MaxY(), other.MaxY())
    }
  }

  /** CGRect.zero. */
  const ZeroRect := Rect(0.0, 0.0, 0.0, 0.0)

  function Max(a: real, b: real): (r: real)
    ensures r >= a && r >= b && (r == a || r == b)
  {
    if a >= b then a else b
  }

  function Min(a: real, b: real): (r: real)
    ensures r <= a && r <= b && (r == a || r == b)
  {
    if a <= b then a else b
  }

  function Abs(a: real): (r: real)
    ensures r >= 0.0 && (r == a || r == -a)
  {
    if a < 0.0 then -a else a
  }
}
