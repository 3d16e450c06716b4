/** Points and segments of the 2D drawing exercise, over exact reals. */
module Geometry {
  import opened Algebra

  /** A point, stored by the source as a two-element array `[x, y]`. */
  datatype Point = Point(x: real, y: real)

  /** A line segment, stored by the source as `[x1, y1, x2, y2]`. */
  datatype Segment = Segment(start: Point, end: Point)

  /** Squared Euclidean distance between two points. */
  function DistSq(p: Point, q: Point): (d: real)
    ensures d >= 0.0
    ensures d == 0.0 <==> p == q
  {
    SquarePositive(p.x - q.x);
    SquarePositive(p.y - q.y);
    Sq(p.x - q.x) + Sq(p.y - q.y)
  }

  /** The point P(t) = start + t * (end - start) of the segment's parametrisation. */
  function PointAt(seg: Segment, t: real): Point
  {
    Point(seg.start.x + t * (seg.end.x - seg.start.x),
          seg.start.y + t * (seg.end.y - seg.start.y))
  }

  /** The parameter range of the segment itself: 0 <= t <= 1. */
  predicate InRange(t: real)
  {
    0.0 <= t <= 1.0
  }

  /** `p` is a point of the closed segment. */
  ghost predicate OnSegment(seg: Segment, p: Point)
  {
    exists t :: InRange(t) && p == PointAt(seg, t)
  }

  /** `p` lies on the circle of the given centre and radius. */
  predicate OnCircle(p: Point, center: Point, r: real)
  {
    DistSq(p, center) == Sq(r)
  }
}
