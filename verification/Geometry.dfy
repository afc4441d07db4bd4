// Points, boxes and the predicates ui/src/diagramCheck.ts measures a drawing with.
module Geometry {

  datatype Option<+T> = None | Some(value: T)

  datatype Point = Point(x: real, y: real)

  datatype Rect = Rect(x: real, y: real, w: real, h: real)

  function Min(a: real, b: real): real {
    if a <= b then a else b
  }

  function Max(a: real, b: real): real {
    if a >= b then a else b
  }

  /** Math.ceil. */
  function Up(v: real): (r: real)
    ensures v <= r < v + 1.0
    ensures r == r.Floor as real
  {
    var n: int := -((-v).Floor);
    n as real
  }

  predicate Overlaps(a: Rect, b: Rect) {
    a.x < b.x + b.w && b.x < a.x + a.w && a.y < b.y + b.h && b.y < a.y + a.h
  }

  /** r lies wholly inside outer. */
  predicate Contains(outer: Rect, r: Rect) {
    r.x >= outer.x && r.y >= outer.y && r.x + r.w <= outer.x + outer.w && r.y + r.h <= outer.y + outer.h
  }

  function Inset(r: Rect, inset: real): Rect {
    Rect(r.x + inset, r.y + inset, r.w - 2.0 * inset, r.h - 2.0 * inset)
  }

  /** How far a box lies from an axis-aligned segment in x and in y. */
  function GapX(r: Rect, a: Point, b: Point): (d: real)
    ensures d >= 0.0
  {
    Max(Max(r.x - Max(a.x, b.x), Min(a.x, b.x) - (r.x + r.w)), 0.0)
  }

  function GapY(r: Rect, a: Point, b: Point): (d: real)
    ensures d >= 0.0
  {
    Max(Max(r.y - Max(a.y, b.y), Min(a.y, b.y) - (r.y + r.h)), 0.0)
  }

  /** distance(r, a, b) >= least: the hypotenuse of the two gaps, compared squared. */
  predicate Clear(r: Rect, a: Point, b: Point, least: real) {
    var dx, dy := GapX(r, a, b), GapY(r, a, b);
    dx * dx + dy * dy >= least * least
  }

  lemma GapSquared(d: real, least: real, other: real)
    requires 0.0 <= least <= d
    ensures d * d + other * other >= least * least
  {
    assert d * d >= least * least;
    assert other * other >= 0.0;
  }

  /** A box whose gap in one direction is large enough already is clear. */
  lemma ClearByGap(r: Rect, a: Point, b: Point, least: real)
    requires least >= 0.0 && (GapX(r, a, b) >= least || GapY(r, a, b) >= least)
    ensures Clear(r, a, b, least)
  {
    if GapX(r, a, b) >= least {
      GapSquared(GapX(r, a, b), least, GapY(r, a, b));
    } else {
      GapSquared(GapY(r, a, b), least, GapX(r, a, b));
    }
  }

  predicate Between(p: real, q: real, r: real) {
    p > Min(q, r) && p < Max(q, r)
  }

  /** One segment level, the other upright, and each passes through the inside of the other. */
  predicate Cut(a: Point, b: Point, c: Point, d: Point) {
    if (a.y == b.y) == (c.y == d.y) then false
    else if a.y == b.y then Between(c.x, a.x, b.x) && Between(a.y, c.y, d.y)
    else Between(a.x, c.x, d.x) && Between(c.y, a.y, b.y)
  }

  /** Two level or two upright segments lie on one line and overlap there. */
  predicate Collinear(a: Point, b: Point, c: Point, d: Point) {
    if a.x == b.x && c.x == d.x && a.x == c.x then
      Min(Max(a.y, b.y), Max(c.y, d.y)) > Max(Min(a.y, b.y), Min(c.y, d.y))
    else if a.y == b.y && c.y == d.y && a.y == c.y then
      Min(Max(a.x, b.x), Max(c.x, d.x)) > Max(Min(a.x, b.x), Min(c.x, d.x))
    else false
  }

  // ---- extents ----

  function Least(s: seq<real>): (m: real)
    requires s != []
    ensures exists i :: 0 <= i < |s| && m == s[i]
    ensures forall i :: 0 <= i < |s| ==> m <= s[i]
  {
    if |s| == 1 then s[0]
    else
      var rest := Least(s[1..]);
      assert forall i :: 1 <= i < |s| ==> s[i] == s[1..][i - 1];
      Min(s[0], rest)
  }

  function Greatest(s: seq<real>): (m: real)
    requires s != []
    ensures exists i :: 0 <= i < |s| && m == s[i]
    ensures forall i :: 0 <= i < |s| ==> s[i] <= m
  {
    if |s| == 1 then s[0]
    else
      var rest := Greatest(s[1..]);
      assert forall i :: 1 <= i < |s| ==> s[i] == s[1..][i - 1];
      Max(s[0], rest)
  }
}
