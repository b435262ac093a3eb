/**
  Points, axis-aligned boxes and the transit ("detail") point between two
  boxes of the navigation mesh.  Coordinates are only ever compared, never
  combined arithmetically, so they are modelled as `real`.
 */
module Geometry {

  datatype Point = Point(x: real, y: real)

  /** A box `(x1, x2, y1, y2)` covering the closed ranges `[x1, x2] × [y1, y2]`. */
  datatype Box = Box(x1: real, x2: real, y1: real, y2: real)

  /** A closed range `[lo, hi]`; it is empty when `hi < lo`. */
  datatype Interval = Interval(lo: real, hi: real) {

    predicate NonEmpty() {
      lo <= hi
    }

    predicate Has(v: real) {
      lo <= v <= hi
    }
  }

  /** Closed containment, as the test inside `find_box`: boundary points belong to the box. */
  predicate Contains(b: Box, p: Point) {
    b.x1 <= p.x <= b.x2 && b.y1 <= p.y <= b.y2
  }

  function Max(a: real, b: real): real {
    if a < b then b else a
  }

  function Min(a: real, b: real): real {
    if b < a then b else a
  }

  function Abs(a: real): real {
    if a < 0.0 then -a else a
  }

  /** The x extent shared by two boxes: `(max(x1, x3), min(x2, x4))`. */
  function XRange(b1: Box, b2: Box): Interval {
    Interval(Max(b1.x1, b2.x1), Min(b1.x2, b2.x2))
  }

  /** The y extent shared by two boxes: `(max(y1, y3), min(y2, y4))`. */
  function YRange(b1: Box, b2: Box): Interval {
    Interval(Max(b1.y1, b2.y1), Min(b1.y2, b2.y2))
  }

  /** The two boxes share at least a boundary point. */
  predicate Overlaps(b1: Box, b2: Box) {
    XRange(b1, b2).NonEmpty() && YRange(b1, b2).NonEmpty()
  }

  /**
    One coordinate of `calculate_detail_point`: below the range it becomes the
    lower end, above it the upper end, otherwise it is kept.  On an empty range
    (`hi < lo`) the tests are still made in that order.
   */
  function Clamp(v: real, r: Interval): (c: real)
    ensures r.NonEmpty() ==> r.Has(c)
    ensures r.Has(v) ==> c == v
  {
    if v < r.lo then r.lo
    else if v > r.hi then r.hi
    else v
  }

  /**
    `calculate_detail_point(box1, box2, point)`: the point clamped, one
    coordinate at a time, into the overlap rectangle of the two boxes.
   */
  function DetailPoint(b1: Box, b2: Box, p: Point): (r: Point)
    ensures Overlaps(b1, b2) ==> Contains(b1, r) && Contains(b2, r)
    ensures XRange(b1, b2).Has(p.x) ==> r.x == p.x
    ensures YRange(b1, b2).Has(p.y) ==> r.y == p.y
  {
    Point(Clamp(p.x, XRange(b1, b2)), Clamp(p.y, YRange(b1, b2)))
  }

  /** On overlapping boxes, projecting an already projected point changes nothing. */
  lemma DetailPointIdempotent(b1: Box, b2: Box, p: Point)
    requires Overlaps(b1, b2)
    ensures DetailPoint(b1, b2, DetailPoint(b1, b2, p)) == DetailPoint(b1, b2, p)
  {
  }

  /** The overlap rectangle is built with `max`/`min` of both boxes, so their order does not matter. */
  lemma DetailPointSymmetric(b1: Box, b2: Box, p: Point)
    ensures DetailPoint(b1, b2, p) == DetailPoint(b2, b1, p)
  {
  }

  /**
    Among all points lying in both boxes, the detail point is, in each axis
    separately, the one nearest to the reference point.
   */
  lemma DetailPointNearest(b1: Box, b2: Box, p: Point, q: Point)
    requires Contains(b1, q) && Contains(b2, q)
    ensures var r := DetailPoint(b1, b2, p);
      Abs(r.x - p.x) <= Abs(q.x - p.x) && Abs(r.y - p.y) <= Abs(q.y - p.y)
  {
  }
}
