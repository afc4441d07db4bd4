// The points rounding made redundant, dropped from a route (tidy,
// ui/src/diagramLayout.ts).
module Tidy {
  import opened Geometry

  predicate Middle(a: real, b: real, c: real) {
    (a <= b <= c) || (a >= b >= c)
  }

  /** The middle of three in a line, level or upright, running one way. */
  predicate Redundant(a: Point, b: Point, c: Point) {
    (a.x == b.x == c.x && Middle(a.y, b.y, c.y)) || (a.y == b.y == c.y && Middle(a.x, b.x, c.x))
  }

  /** One more point of the route. */
  function Step(out: seq<Point>, p: Point): (r: seq<Point>)
    ensures r != []
  {
    var n := |out|;
    if n > 0 && out[n - 1] == p then out
    else if n > 1 && Redundant(out[n - 2], out[n - 1], p) then out[..n - 1] + [p]
    else out + [p]
  }

  function Tidied(points: seq<Point>): seq<Point> {
    if points == [] then [] else Step(Tidied(points[..|points| - 1]), points[|points| - 1])
  }

  method TidyUp(points: seq<Point>) returns (out: seq<Point>)
    ensures out == Tidied(points)
  {
    out := [];
    for i := 0 to |points|
      invariant out == Tidied(points[..i])
    {
      var p, n := points[i], |out|;
      assert points[..i + 1][..i] == points[..i];
      if n > 0 && out[n - 1].x == p.x && out[n - 1].y == p.y {
        continue;
      }
      if n > 1 && Redundant(out[n - 2], out[n - 1], p) {
        out := out[..n - 1] + [p];
        continue;
      }
      out := out + [p];
    }
    assert points[..|points|] == points;
  }

  // ---- what the route covers ----

  /** q lies on the segment from a to b: in its box, and in line with both. */
  predicate On(q: Point, a: Point, b: Point) {
    && Middle(a.x, q.x, b.x) && Middle(a.y, q.y, b.y)
    && (q.x - a.x) * (b.y - a.y) == (q.y - a.y) * (b.x - a.x)
  }

  predicate OnAt(points: seq<Point>, k: nat, q: Point) {
    k + 1 < |points| && On(q, points[k], points[k + 1])
  }

  /** The route passes through q. */
  ghost predicate Covers(points: seq<Point>, q: Point) {
    q in points || exists k: nat :: OnAt(points, k, q)
  }

  lemma CoversEnd(points: seq<Point>, p: Point, q: Point)
    ensures Covers(points + [p], q) <==>
            Covers(points, q) || q == p || (points != [] && On(q, points[|points| - 1], p))
  {
    var n := |points|;
    var all := points + [p];
    forall k: nat ensures OnAt(all, k, q) <==> OnAt(points, k, q) || (n > 0 && k == n - 1 && On(q, points[n - 1], p)) {
    }
    if n > 0 && On(q, points[n - 1], p) {
      assert OnAt(all, n - 1, q);
    }
    if Covers(points, q) && q !in points {
      var k: nat :| OnAt(points, k, q);
      assert OnAt(all, k, q);
    }
  }

  lemma OnEnd(a: Point, b: Point)
    ensures On(a, a, b) && On(b, a, b)
  {
  }

  lemma OnRepeat(q: Point, a: Point)
    ensures On(q, a, a) <==> q == a
  {
  }

  /** A level or upright segment is its box. */
  lemma OnStraight(q: Point, a: Point, b: Point)
    requires a.x == b.x || a.y == b.y
    ensures On(q, a, b) <==> Middle(a.x, q.x, b.x) && Middle(a.y, q.y, b.y)
  {
  }

  /** Past a middle the segment splits in two, and nothing is lost. */
  lemma OnSplit(q: Point, a: Point, b: Point, c: Point)
    requires Redundant(a, b, c)
    ensures On(q, a, c) <==> On(q, a, b) || On(q, b, c)
  {
    OnStraight(q, a, b);
    OnStraight(q, b, c);
    OnStraight(q, a, c);
  }

  lemma StepCovers(out: seq<Point>, p: Point, q: Point)
    ensures Covers(Step(out, p), q) <==> Covers(out + [p], q)
  {
    hide Covers, On;
    var n := |out|;
    CoversEnd(out, p, q);
    if n > 0 && out[n - 1] == p {
      OnRepeat(q, p);
      assert p in out;
      Through(out, p);
    } else if n > 1 && Redundant(out[n - 2], out[n - 1], p) {
      var init := out[..n - 1];
      CoversEnd(init, p, q);
      CoversEnd(init, out[n - 1], q);
      assert out == init + [out[n - 1]];
      OnSplit(q, out[n - 2], out[n - 1], p);
      OnEnd(out[n - 2], out[n - 1]);
    }
  }

  lemma Through(points: seq<Point>, q: Point)
    requires q in points
    ensures Covers(points, q)
  {
  }

  lemma CoversMore(a: seq<Point>, b: seq<Point>, p: Point, q: Point)
    requires (forall r :: Covers(a, r) <==> Covers(b, r)) && (a == [] <==> b == [])
    requires a != [] ==> a[|a| - 1] == b[|b| - 1]
    ensures Covers(a + [p], q) <==> Covers(b + [p], q)
  {
    hide Covers, On;
    CoversEnd(a, p, q);
    CoversEnd(b, p, q);
    assert Covers(a, q) <==> Covers(b, q);
  }

  /** A tidied route starts and ends where the route did. */
  lemma {:induction false} TidyKeepsEnds(points: seq<Point>)
    ensures |Tidied(points)| <= |points| && (points == [] <==> Tidied(points) == [])
    ensures points != [] ==> Tidied(points)[0] == points[0]
    ensures points != [] ==> Tidied(points)[|Tidied(points)| - 1] == points[|points| - 1]
  {
    if points != [] {
      TidyKeepsEnds(points[..|points| - 1]);
    }
  }

  /** And passes through exactly the same points, where it doubles back too. */
  lemma {:induction false} TidyCoversTheSame(points: seq<Point>, q: Point)
    ensures Covers(Tidied(points), q) <==> Covers(points, q)
  {
    hide Covers, Step;
    if points != [] {
      var init, p := points[..|points| - 1], points[|points| - 1];
      assert points == init + [p];
      forall r ensures Covers(Tidied(init), r) <==> Covers(init, r) {
        TidyCoversTheSame(init, r);
      }
      TidyKeepsEnds(init);
      CoversMore(Tidied(init), init, p, q);
      StepCovers(Tidied(init), p, q);
    }
  }

  // ---- what is left ----

  predicate NeedsAt(points: seq<Point>, k: int) {
    && (0 <= k < |points| - 1 ==> points[k] != points[k + 1])
    && (1 <= k < |points| - 1 ==> !Redundant(points[k - 1], points[k], points[k + 1]))
  }

  /** No point is a repeat or a middle. */
  predicate IsTidy(points: seq<Point>) {
    forall k :: 0 <= k < |points| ==> NeedsAt(points, k)
  }

  /** A middle and the point before it: taking the next for the middle makes no new one. */
  lemma Skips(z: Point, a: Point, b: Point, p: Point)
    requires Redundant(a, b, p) && a != b && !Redundant(z, a, b) && z != a
    ensures a != p && !Redundant(z, a, p)
  {
  }

  lemma StepIsTidy(out: seq<Point>, p: Point)
    requires IsTidy(out)
    ensures IsTidy(Step(out, p))
  {
    var n, r := |out|, Step(out, p);
    hide Redundant;
    if n > 1 && out[n - 1] != p && Redundant(out[n - 2], out[n - 1], p) {
      assert NeedsAt(out, n - 2);
      if n > 2 {
        assert NeedsAt(out, n - 3);
        Skips(out[n - 3], out[n - 2], out[n - 1], p);
      } else {
        Apart(out[0], out[1], p);
      }
    }
    forall k | 0 <= k < |r| ensures NeedsAt(r, k) {
      assert k < n ==> NeedsAt(out, k);
    }
  }

  lemma Apart(a: Point, b: Point, p: Point)
    requires Redundant(a, b, p) && a != b
    ensures a != p
  {
  }

  /** A tidied route has no repeat and no redundant middle. */
  lemma {:induction false} TidyIsTidy(points: seq<Point>)
    ensures IsTidy(Tidied(points))
  {
    if points != [] {
      TidyIsTidy(points[..|points| - 1]);
      StepIsTidy(Tidied(points[..|points| - 1]), points[|points| - 1]);
    }
  }

  /** A tidy route is left as it is: tidying twice is tidying once. */
  lemma {:induction false} TidyLeavesTidy(points: seq<Point>)
    requires IsTidy(points)
    ensures Tidied(points) == points
  {
    if points != [] {
      var n := |points|;
      var init := points[..n - 1];
      forall k | 0 <= k < |init| ensures NeedsAt(init, k) {
        assert NeedsAt(points, k);
      }
      assert NeedsAt(points, n - 2);
      TidyLeavesTidy(init);
      hide Tidied, IsTidy;
      StepAppends(points);
    }
  }

  /** A point that is no repeat and makes no middle redundant is put on the end. */
  lemma StepAppends(points: seq<Point>)
    requires points != [] && NeedsAt(points, |points| - 2)
    ensures Step(points[..|points| - 1], points[|points| - 1]) == points
  {
    hide Redundant;
    var n := |points|;
    assert points[..n - 1] + [points[n - 1]] == points;
  }

  lemma TidyTwice(points: seq<Point>)
    ensures Tidied(Tidied(points)) == Tidied(points)
  {
    TidyIsTidy(points);
    TidyLeavesTidy(Tidied(points));
  }
}
