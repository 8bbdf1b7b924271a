/**
  Geometry value types. A rectangle is an origin and a size, as in the
  `euclid` crate the library builds on; coordinates are reals (the library
  uses `f64`, whose NaN, infinities and rounding are not modelled).
*/
module Geometry {
  datatype Point = Point(x: real, y: real)
  datatype Size = Size(width: real, height: real)
  datatype Rect = Rect(origin: Point, size: Size)

  /** A one-dimensional range `start..end` on one axis. */
  datatype Range = Range(start: real, end: real)

  function MinX(r: Rect): real { r.origin.x }
  function MaxX(r: Rect): real { r.origin.x + r.size.width }
  function MinY(r: Rect): real { r.origin.y }
  function MaxY(r: Rect): real { r.origin.y + r.size.height }

  /** The extent of a rectangle on the horizontal axis. */
  function HorizontalExtent(r: Rect): Range { Range(MinX(r), MaxX(r)) }

  /** The extent of a rectangle on the vertical axis. */
  function VerticalExtent(r: Rect): Range { Range(MinY(r), MaxY(r)) }

  function Length(r: Range): real { r.end - r.start }

  /** `r` lies entirely within `bounds`. */
  predicate Within(r: Range, bounds: Range) {
    bounds.start <= r.start && r.end <= bounds.end
  }

  /** `f64::max` and `f64::min`, without NaN. */
  function Max(a: real, b: real): real { if a >= b then a else b }
  function Min(a: real, b: real): real { if a <= b then a else b }

  /** Moves a range by `t` along its axis. */
  function Shift(r: Range, t: real): Range { Range(r.start + t, r.end + t) }

  /** Reflects a range through the origin of its axis. */
  function Negate(r: Range): Range { Range(-r.end, -r.start) }

  /** Moves a rectangle by `(dx, dy)`. */
  function Translate(r: Rect, dx: real, dy: real): Rect {
    Rect(Point(r.origin.x + dx, r.origin.y + dy), r.size)
  }
}
