// What one route of a drawing is to a box and to another route: the connector rules of
// ui/src/diagramCheck.ts.
module Routes {
  import opened Geometry

  /** Segments run level or upright. */
  predicate Square(q: seq<Point>) {
    forall i :: 0 <= i < |q| - 1 ==> q[i].x == q[i + 1].x || q[i].y == q[i + 1].y
  }

  /** An end on one side of a box, its segment straight out of that side. */
  predicate Joins(b: Rect, end: Point, next: Point) {
    || (end.y == next.y && b.y < end.y < b.y + b.h
        && (if next.x < end.x then end.x == b.x else next.x > end.x && end.x == b.x + b.w))
    || (end.x == next.x && b.x < end.x < b.x + b.w
        && (if next.y < end.y then end.y == b.y else next.y > end.y && end.y == b.y + b.h))
  }

  /** A segment enters the inside of a rect. */
  predicate Enters(a: Point, b: Point, r: Rect) {
    Max(a.x, b.x) > r.x && Min(a.x, b.x) < r.x + r.w && Max(a.y, b.y) > r.y && Min(a.y, b.y) < r.y + r.h
  }

  /** A route passes behind no box. */
  predicate PassesNone(q: seq<Point>, b: Rect) {
    forall i :: 0 <= i < |q| - 1 ==> !Enters(q[i], q[i + 1], b)
  }

  /** Segment i of one route cuts segment j of the other. */
  predicate CutAt(p: seq<Point>, q: seq<Point>, i: nat, j: nat) {
    i + 1 < |p| && j + 1 < |q| && Cut(p[i], p[i + 1], q[j], q[j + 1])
  }

  predicate TogetherAt(p: seq<Point>, q: seq<Point>, i: nat, j: nat) {
    i + 1 < |p| && j + 1 < |q| && Collinear(p[i], p[i + 1], q[j], q[j + 1])
  }

  /** Two routes cross: segments cut inside both. */
  ghost predicate RoutesCut(p: seq<Point>, q: seq<Point>) {
    exists i: nat, j: nat :: CutAt(p, q, i, j)
  }

  /** Two routes run on top of each other. */
  ghost predicate RoutesTogether(p: seq<Point>, q: seq<Point>) {
    exists i: nat, j: nat :: TogetherAt(p, q, i, j)
  }

  /** Two routes share an attach point. */
  predicate EndsShared(p: seq<Point>, q: seq<Point>)
    requires p != [] && q != []
  {
    p[0] == q[0] || p[0] == q[|q| - 1] || p[|p| - 1] == q[0] || p[|p| - 1] == q[|q| - 1]
  }
}
