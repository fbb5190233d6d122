/** Points in screen pixel space and the distance between them. */
module Geometry {

  /** A position in screen pixel space. */
  datatype Point = Point(x: real, y: real)

  /**
   * What the solver may rely on about `point_diff`. The source computes the Euclidean
   * distance with `hypot`, which has no exact counterpart over the reals without a square
   * root, so the model takes the distance as a parameter and states the metric facts
   * `hypot` of a difference has: it is nonnegative, symmetric and zero between a point and
   * itself. Of these the lemmas use only the last.
   */
  ghost predicate IsDistance(dist: (Point, Point) -> real) {
    (forall a: Point, b: Point :: dist(a, b) >= 0.0 && dist(a, b) == dist(b, a)) &&
    (forall a: Point :: dist(a, a) == 0.0)
  }
}
