/**
 * Canvas points and the "close the polygon" proximity test shared by both capture components.
 *
 * The source compares `Math.sqrt(dx ** 2 + dy ** 2) < 10` in floating point; the model compares the
 * squared distance with the squared radius over exact reals, and `WithinCloseRadiusIsDistanceTest`
 * shows that this is the same test as comparing the Euclidean distance itself.
 */
module Geometry {

  /** A point in canvas pixel space, as reported by the pointer. */
  datatype Vertex = Vertex(x: real, y: real)

  /** A click closer than this to the first vertex closes the polygon. */
  const CloseRadius: real := 10.0

  /** `v * v`, which is never negative. */
  function Square(v: real): (s: real)
    ensures s >= 0.0
  {
    v * v
  }

  /** The square of the Euclidean distance between `p` and `q`. */
  function SquaredDistance(p: Vertex, q: Vertex): (d: real)
    ensures d >= 0.0
  {
    Square(p.x - q.x) + Square(p.y - q.y)
  }

  /** True when `p` lies strictly inside the closing circle around `q`. */
  predicate WithinCloseRadius(p: Vertex, q: Vertex) {
    SquaredDistance(p, q) < CloseRadius * CloseRadius
  }

  /**
   * The squared test agrees with the source's test on the distance itself: for the non-negative
   * `dist` whose square is the squared distance (the value `Math.sqrt` computes), the point is
   * within the radius exactly when `dist < 10`.
   */
  lemma WithinCloseRadiusIsDistanceTest(p: Vertex, q: Vertex, dist: real)
    requires dist >= 0.0 && dist * dist == SquaredDistance(p, q)
    ensures WithinCloseRadius(p, q) <==> dist < CloseRadius
  {
    if dist < CloseRadius {
      assert dist * dist <= dist * CloseRadius;
      assert dist * CloseRadius < CloseRadius * CloseRadius;
    } else {
      assert dist * dist >= dist * CloseRadius;
      assert dist * CloseRadius >= CloseRadius * CloseRadius;
    }
  }

  /** The threshold is strict: no point at distance exactly 10 is within the radius. */
  lemma BoundaryIsOutside(p: Vertex, q: Vertex)
    requires SquaredDistance(p, q) == CloseRadius * CloseRadius
    ensures !WithinCloseRadius(p, q)
  {
  }

  /**
   * No vertex after the first lies within the closing radius of the first: a click there would
   * have closed the polygon instead of adding a vertex.
   */
  predicate ClearOfFirstVertex(vs: seq<Vertex>) {
    forall k :: 1 <= k < |vs| ==> !WithinCloseRadius(vs[k], vs[0])
  }
}
