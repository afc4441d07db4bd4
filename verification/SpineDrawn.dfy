// The main path, its branches and its lanes in one drawing, held to the connector
// rules of check (ui/src/diagramCheck.ts).
module SpineDrawn {
  import opened Geometry
  import opened Routes
  import opened Sorting
  import opened SpineRows
  import opened SpineLanes

  /** What the lanes see of the path. */
  function SideOf(rows: seq<Row>): (s: Side)
    ensures |s.mids| == |s.lefts| == |s.single| == |rows|
  {
    Side(seq(|rows|, k requires 0 <= k < |rows| => Mid(rows, k)),
         seq(|rows|, k requires 0 <= k < |rows| => 0.0 - rows[k].w / 2.0),
         seq(|rows|, k requires 0 <= k < |rows| => rows[k].single))
  }

  function LeftOf(rows: seq<Row>): real {
    0.0 - Right(rows)
  }

  /** A path, branches and lanes that fit, the lanes from the innermost out. */
  ghost predicate Drawable(p: Plan, order: seq<Lane>) {
    && PlanOk(p) && Texts(order)
    && Fitting(SideOf(p.rows), order) && Sorted(Shorter(SideOf(p.rows).mids), order)
  }

  /** A route: along the path or a branch, or a lane beside it. */
  datatype Line = Along(a: Arrow) | Beside(k: nat)

  predicate HasLine(p: Plan, order: seq<Lane>, l: Line) {
    match l
    case Along(a) => HasArrow(p, a)
    case Beside(k) => k < |order|
  }

  ghost predicate OnRows(p: Plan, order: seq<Lane>) {
    forall l <- order :: l.a < |p.rows| && l.b < |p.rows| && l.a != l.b
  }

  function LinePoints(p: Plan, order: seq<Lane>, l: Line): (q: seq<Point>)
    requires HasLine(p, order, l) && OnRows(p, order)
    ensures 2 <= |q| <= 4
  {
    match l
    case Along(a) => ArrowPoints(p, a)
    case Beside(k) => RouteOf(SideOf(p.rows), order, LeftOf(p.rows), k).points
  }

  function ArrowRoute(p: Plan, a: Arrow): Route
    requires HasArrow(p, a)
  {
    Route(ArrowPoints(p, a), if TextOf(p, a).Some? then Some(ArrowLabel(p, a)) else None)
  }

  /** A route as drawn: its points, and its label's box if it has one. */
  function LineRoute(p: Plan, order: seq<Lane>, l: Line): Route
    requires HasLine(p, order, l) && OnRows(p, order)
    ensures LineRoute(p, order, l).points == LinePoints(p, order, l)
  {
    match l
    case Along(a) => ArrowRoute(p, a)
    case Beside(k) => RouteOf(SideOf(p.rows), order, LeftOf(p.rows), k)
  }

  function LineFrom(p: Plan, order: seq<Lane>, l: Line): (m: Mark)
    requires HasLine(p, order, l) && OnRows(p, order)
    ensures HasMark(p, m)
  {
    match l
    case Along(a) => ArrowFrom(a)
    case Beside(k) => assert order[k] in order; OnPath(order[k].a)
  }

  function LineTo(p: Plan, order: seq<Lane>, l: Line): (m: Mark)
    requires HasLine(p, order, l) && OnRows(p, order)
    ensures HasMark(p, m)
  {
    match l
    case Along(a) => ArrowTo(a)
    case Beside(k) => assert order[k] in order; OnPath(order[k].b)
  }

  lemma DrawableOnRows(p: Plan, order: seq<Lane>)
    requires Drawable(p, order)
    ensures OnRows(p, order) && Leftmost(SideOf(p.rows), LeftOf(p.rows))
  {
    var s := SideOf(p.rows);
    forall r | 0 <= r < |s.lefts| ensures LeftOf(p.rows) <= s.lefts[r] {
      assert p.rows[r] in p.rows;
    }
  }

  // ---- a route on its own ----

  lemma LaneMeets(p: Plan, order: seq<Lane>, k: nat)
    requires Drawable(p, order) && OnRows(p, order) && k < |order|
    ensures var q := LinePoints(p, order, Beside(k));
            && |q| == 4 && q[0].y == q[1].y && q[1].x == q[2].x && q[2].y == q[3].y && q[1].x + 32.0 <= LeftOf(p.rows)
            && Joins(BoxOf(p, LineFrom(p, order, Beside(k))), q[0], q[1])
            && Joins(BoxOf(p, LineTo(p, order, Beside(k))), q[3], q[2])
  {
    var s := SideOf(p.rows);
    DrawableOnRows(p, order);
    LaneShape(s, order, LeftOf(p.rows), k, k);
    LaneEnd(p, order, k, order[k].a);
    LaneEnd(p, order, k, order[k].b);
    hide Port, LaneX, Fitting, Texts, Sorted, RowsOk, Leftmost, Right, Mid;
  }

  lemma LaneEnd(p: Plan, order: seq<Lane>, k: nat, r: nat)
    requires PlanOk(p) && k < |order| && r < |p.rows|
    ensures var b, y := BoxOf(p, OnPath(r)), Port(SideOf(p.rows), order, k, r);
            && b.x == SideOf(p.rows).lefts[r] && b.y < y < b.y + b.h
            && b.y + b.h / 2.0 - 8.0 <= y <= b.y + b.h / 2.0 + 8.0
  {
    assert RowOk(p.rows[r]) by { assert p.rows[r] in p.rows; }
    PortNear(SideOf(p.rows), order, k, r);
    hide Port, Mid;
  }

  /** The box a route leaves lets it: always, but for an arrow out of a branch's node. */
  predicate LineLeaves(p: Plan, l: Line) {
    l.Along? && HasArrow(p, l.a) ==> Leaves(p, l.a)
  }

  /** Every route is square; it leaves and enters its boxes straight out of their sides
      exactly when the box it leaves ends before the one it enters begins. */
  lemma LineMeets(p: Plan, order: seq<Lane>, l: Line)
    requires Drawable(p, order) && OnRows(p, order) && HasLine(p, order, l)
    ensures Square(LinePoints(p, order, l))
    ensures LineJoins(p, order, l) <==> LineLeaves(p, l)
  {
    if l.Beside? {
      LaneMeets(p, order, l.k);
      hide LinePoints, BoxOf, Drawable;
    } else {
      AlongMeets(p, l.a);
      hide Fitting, Texts, Sorted, BoxOf, ArrowPoints, RowsOk, Leaves, Joins;
    }
  }

  lemma AlongMeets(p: Plan, a: Arrow)
    requires PlanOk(p) && HasArrow(p, a)
    ensures HasMark(p, ArrowFrom(a)) && HasMark(p, ArrowTo(a))
    ensures Square(ArrowPoints(p, a))
    ensures var q, from, to := ArrowPoints(p, a), BoxOf(p, ArrowFrom(a)), BoxOf(p, ArrowTo(a));
            Joins(from, q[0], q[1]) && Joins(to, q[1], q[0]) <==> a.Down? || Leaves(p, a)
  {
    hide PlanOk, BoxOf, ArrowPoints, Leaves, Mid, Top, RowHeight;
    ArrowRuns(p, a);
    BoxInRow(p, ArrowFrom(a));
    BoxInRow(p, ArrowTo(a));
  }

  /** A route's ends on the sides of its two boxes. */
  predicate LineJoins(p: Plan, order: seq<Lane>, l: Line)
    requires HasLine(p, order, l) && OnRows(p, order)
  {
    var q := LinePoints(p, order, l);
    && Joins(BoxOf(p, LineFrom(p, order, l)), q[0], q[1])
    && Joins(BoxOf(p, LineTo(p, order, l)), q[|q| - 1], q[|q| - 2])
  }

  // ---- behind no box ----

  lemma LanePassesNone(p: Plan, order: seq<Lane>, k: nat, m: Mark)
    requires Drawable(p, order) && OnRows(p, order) && k < |order| && HasMark(p, m)
    ensures PassesNone(LinePoints(p, order, Beside(k)), BoxOf(p, m))
  {
    var q, b := LinePoints(p, order, Beside(k)), BoxOf(p, m);
    LaneMeets(p, order, k);
    assert OnPath(order[k].a) == LineFrom(p, order, Beside(k)) && OnPath(order[k].b) == LineTo(p, order, Beside(k));
    hide LinePoints, Drawable;
    assert PlanOk(p) && Drawable(p, order);
    StubPasses(p, order, k, order[k].a, m);
    StubPasses(p, order, k, order[k].b, m);
    LeftOfAll(p, m);
    hide BoxOf, Right, Enters, LeftOf;
    assert q[1].x <= b.x && q[2].x <= b.x;
    LanePasses(q, b, BoxOf(p, OnPath(order[k].a)), BoxOf(p, OnPath(order[k].b)));
  }

  lemma LeftOfAll(p: Plan, m: Mark)
    requires PlanOk(p) && HasMark(p, m)
    ensures LeftOf(p.rows) <= BoxOf(p, m).x
  {
    BoxAcross(p, m);
    if m.OnPath? {
      RowOf(p, m);
    }
  }

  /** Right of where a lane meets row r, or in another row. */
  predicate Away(b: Rect, at: Rect) {
    at.x <= b.x || b.y + b.h <= at.y || at.y + at.h <= b.y
  }

  lemma StubPasses(p: Plan, order: seq<Lane>, k: nat, r: nat, m: Mark)
    requires PlanOk(p) && r < |p.rows| && HasMark(p, m)
    ensures Away(BoxOf(p, m), BoxOf(p, OnPath(r)))
  {
    if m.r < r {
      MarkRowsApart(p, m, OnPath(r));
    } else if m.r > r {
      MarkRowsApart(p, OnPath(r), m);
    } else if m.Hung? {
      BoxAcross(p, m);
      BoxAcross(p, OnPath(r));
    }
  }

  lemma LanePasses(q: seq<Point>, b: Rect, from: Rect, to: Rect)
    requires |q| == 4 && q[0].y == q[1].y && q[1].x == q[2].x && q[2].y == q[3].y && q[1].x <= b.x
    requires Joins(from, q[0], q[1]) && Joins(to, q[3], q[2]) && q[1].x < q[0].x == from.x && q[2].x < q[3].x == to.x
    requires Away(b, from) && Away(b, to)
    ensures PassesNone(q, b)
  {
    assert !Enters(q[0], q[1], b) && !Enters(q[1], q[2], b) && !Enters(q[2], q[3], b);
  }

  /** The route runs along the branch the box hangs in. */
  predicate SameBranch(l: Line, m: Mark) {
    l.Along? && l.a.Out? && m.Hung? && m.r == l.a.r
  }

  /** No route passes behind a box, but for a branch's own that does not keep to its
      columns. */
  lemma LinePassesNone(p: Plan, order: seq<Lane>, l: Line, m: Mark)
    requires Drawable(p, order) && OnRows(p, order) && HasLine(p, order, l) && HasMark(p, m)
    requires SameBranch(l, m) ==> BranchKeeps(p, m.r)
    ensures PassesNone(LinePoints(p, order, l), BoxOf(p, m))
  {
    if l.Beside? {
      LanePassesNone(p, order, l.k, m);
    } else {
      hide Fitting, Texts, Sorted, BoxOf, BranchKeeps, RowsOk, Enters;
      if l.a.Down? {
        DownPassesNone(p, l.a.r, m);
      } else {
        OutPassesNone(p, l.a, m);
      }
    }
  }

  /** The route is an arrow of a branch that runs behind a box of it by more than the inset. */
  predicate LineBehind(p: Plan, l: Line, m: Mark, inset: real)
    requires l.Along? ==> HasArrow(p, l.a)
    requires HasMark(p, m)
  {
    l.Along? && l.a.Out? && RunsBehind(p, l.a.r, l.a.k, m, inset)
  }

  /** A route passes behind a box, drawn in by 1 or less, exactly then. */
  lemma LineBehindIff(p: Plan, order: seq<Lane>, l: Line, m: Mark, inset: real)
    requires Drawable(p, order) && OnRows(p, order) && HasLine(p, order, l) && HasMark(p, m) && 0.0 <= inset <= 1.0
    ensures l.Along? ==> HasArrow(p, l.a)
    ensures PassesNone(LinePoints(p, order, l), Inset(BoxOf(p, m), inset)) <==> !LineBehind(p, l, m, inset)
  {
    hide Fitting, Texts, Sorted, BoxOf, BranchKeeps, RowsOk, Enters, RunsBehind, Inset;
    if l.Along? && l.a.Out? {
      OutBehind(p, l.a, m, inset);
    } else {
      LinePassesNone(p, order, l, m);
      InsetPasses(LinePoints(p, order, l), BoxOf(p, m), inset);
    }
  }

  lemma InsetPasses(q: seq<Point>, b: Rect, inset: real)
    requires PassesNone(q, b) && inset >= 0.0
    ensures PassesNone(q, Inset(b, inset))
  {
    forall i | 0 <= i < |q| - 1 ensures !Enters(q[i], q[i + 1], Inset(b, inset)) {
      InsetWithin(q[i], q[i + 1], b, inset);
    }
  }

  // ---- two routes ----

  /** Routes right of the lanes' side never meet one on it. */
  lemma SidesApart(p: seq<Point>, q: seq<Point>)
    requires |p| == 2 && p[0].x >= 0.0 && p[1].x >= 0.0
    requires |q| == 4 && forall i :: 0 <= i < 4 ==> q[i].x < 0.0
    ensures !RoutesCut(p, q) && !RoutesTogether(p, q) && !EndsShared(p, q)
    ensures !RoutesCut(q, p) && !RoutesTogether(q, p) && !EndsShared(q, p)
  {
    forall i: nat, j: nat ensures !CutAt(p, q, i, j) && !CutAt(q, p, j, i) {
    }
    forall i: nat, j: nat ensures !TogetherAt(p, q, i, j) && !TogetherAt(q, p, j, i) {
    }
  }

  lemma LaneOnLeft(p: Plan, order: seq<Lane>, k: nat)
    requires Drawable(p, order) && OnRows(p, order) && k < |order|
    ensures var q := LinePoints(p, order, Beside(k)); |q| == 4 && forall i :: 0 <= i < 4 ==> q[i].x < 0.0
  {
    hide LinePoints, BoxOf, Drawable, Joins;
    var q, m, n := LinePoints(p, order, Beside(k)), LineFrom(p, order, Beside(k)), LineTo(p, order, Beside(k));
    assert |q| == 4 && q[1].x < 0.0 && q[2].x < 0.0 by {
      LaneMeets(p, order, k);
    }
    assert q[0].x < 0.0 && q[3].x < 0.0 by {
      assert PlanOk(p) by { DrawablePlan(p, order); }
      LaneStarts(p, order, k);
      BoxAcross(p, m);
      BoxAcross(p, n);
    }
  }

  lemma DrawablePlan(p: Plan, order: seq<Lane>)
    requires Drawable(p, order)
    ensures PlanOk(p)
  {
  }

  lemma LaneStarts(p: Plan, order: seq<Lane>, k: nat)
    requires PlanOk(p) && OnRows(p, order) && k < |order|
    ensures |LinePoints(p, order, Beside(k))| == 4
    ensures var q := LinePoints(p, order, Beside(k));
            q[0].x == BoxOf(p, LineFrom(p, order, Beside(k))).x && q[3].x == BoxOf(p, LineTo(p, order, Beside(k))).x
  {
    hide Mid, LaneX, Port;
    assert order[k] in order;
  }

  lemma ArrowOnRight(p: Plan, a: Arrow)
    requires PlanOk(p) && HasArrow(p, a)
    ensures ArrowPoints(p, a)[0].x >= 0.0 && ArrowPoints(p, a)[1].x >= 0.0
  {
    hide RowsOk;
    ArrowRuns(p, a);
    hide ArrowPoints, BoxOf;
  }

  ghost predicate SpansCross(p: Plan, order: seq<Lane>, l: Line, n: Line)
    requires HasLine(p, order, l) && HasLine(p, order, n)
  {
    l.Beside? && n.Beside? && Properly(SideOf(p.rows).mids, order[l.k], order[n.k])
  }

  /** Two arrows out along one branch. */
  predicate OneBranchLines(l: Line, n: Line) {
    l.Along? && n.Along? && OneBranch(l.a, n.a)
  }

  /** Two arrows of one branch, the inner one's box reaching back over the outer. */
  predicate LinesTogether(p: Plan, l: Line, n: Line)
    requires l.Along? ==> HasArrow(p, l.a)
    requires n.Along? ==> HasArrow(p, n.a)
  {
    l.Along? && n.Along? && BranchTogether(p, l.a, n.a)
  }

  predicate LinesEnd(p: Plan, l: Line, n: Line)
    requires l.Along? ==> HasArrow(p, l.a)
    requires n.Along? ==> HasArrow(p, n.a)
  {
    l.Along? && n.Along? && BranchEnds(p, l.a, n.a)
  }

  /** Two routes cross exactly when both are lanes whose spans properly overlap. They run on
      top of each other, or share an attach point, exactly when they are arrows of one branch
      the inner one's box of which reaches back that far; so never in a branch that keeps to
      its columns. */
  lemma LinesApart(p: Plan, order: seq<Lane>, l: Line, n: Line)
    requires Drawable(p, order) && OnRows(p, order) && HasLine(p, order, l) && HasLine(p, order, n) && l != n
    ensures RoutesCut(LinePoints(p, order, l), LinePoints(p, order, n)) <==> SpansCross(p, order, l, n)
    ensures RoutesTogether(LinePoints(p, order, l), LinePoints(p, order, n)) <==> LinesTogether(p, l, n)
    ensures EndsShared(LinePoints(p, order, l), LinePoints(p, order, n)) <==> LinesEnd(p, l, n)
    ensures (OneBranchLines(l, n) ==> BranchKeeps(p, l.a.r)) ==> !LinesTogether(p, l, n) && !LinesEnd(p, l, n)
  {
    hide RoutesTogether, RoutesCut, EndsShared, ArrowPoints, Fitting, Texts, Sorted, BranchKeeps, RowsOk;
    hide Properly, BranchTogether, BranchEnds;
    if l.Along? && n.Along? {
      ArrowsApart(p, l.a, n.a);
      OneCut(ArrowPoints(p, l.a), ArrowPoints(p, n.a));
      OneSegment(ArrowPoints(p, l.a), ArrowPoints(p, n.a));
    } else if l.Along? {
      ArrowOnRight(p, l.a);
      LaneOnLeft(p, order, n.k);
      SidesApart(LinePoints(p, order, l), LinePoints(p, order, n));
    } else if n.Along? {
      ArrowOnRight(p, n.a);
      LaneOnLeft(p, order, l.k);
      SidesApart(LinePoints(p, order, n), LinePoints(p, order, l));
    } else if l.k < n.k {
      LanePair(p, order, l.k, n.k);
    } else {
      LanePair(p, order, n.k, l.k);
      Turned(LinePoints(p, order, l), LinePoints(p, order, n));
      ProperlyTurned(SideOf(p.rows).mids, order[l.k], order[n.k]);
    }
  }

  lemma ProperlyTurned(mids: seq<real>, l: Lane, n: Lane)
    ensures Properly(mids, l, n) <==> Properly(mids, n, l)
  {
  }

  lemma LanePair(p: Plan, order: seq<Lane>, j: nat, k: nat)
    requires Drawable(p, order) && OnRows(p, order) && j < k < |order|
    ensures var u, v := LinePoints(p, order, Beside(j)), LinePoints(p, order, Beside(k));
            && !RoutesTogether(u, v) && !EndsShared(u, v)
            && (RoutesCut(u, v) <==> Properly(SideOf(p.rows).mids, order[j], order[k]))
  {
    hide RoutesTogether, RoutesCut, EndsShared, Fitting, Texts, Sorted, RowsOk, Properly, RouteOf, SideOf;
    DrawableOnRows(p, order);
    var s, left := SideOf(p.rows), LeftOf(p.rows);
    LanesCross(s, order, left, j, k);
    LanesApart(s, order, left, j, k);
  }

  lemma OneSegment(u: seq<Point>, v: seq<Point>)
    requires |u| == |v| == 2
    ensures RoutesTogether(u, v) <==> Collinear(u[0], u[1], v[0], v[1])
    ensures EndsShared(u, v) <==> Touching(u, v)
  {
    if Collinear(u[0], u[1], v[0], v[1]) {
      assert TogetherAt(u, v, 0, 0);
    } else {
      forall i: nat, j: nat ensures !TogetherAt(u, v, i, j) {
      }
    }
  }

  lemma OneCut(u: seq<Point>, v: seq<Point>)
    requires |u| == |v| == 2 && !Cut(u[0], u[1], v[0], v[1])
    ensures !RoutesCut(u, v)
  {
    forall i: nat, j: nat ensures !CutAt(u, v, i, j) {
      if i == 0 && j == 0 {
        assert !Cut(u[i], u[i + 1], v[j], v[j + 1]);
      }
    }
  }

  lemma Turned(u: seq<Point>, v: seq<Point>)
    requires u != [] && v != []
    ensures RoutesCut(u, v) <==> RoutesCut(v, u)
    ensures RoutesTogether(u, v) <==> RoutesTogether(v, u)
    ensures EndsShared(u, v) <==> EndsShared(v, u)
  {
    forall i: nat, j: nat ensures CutAt(u, v, i, j) <==> CutAt(v, u, j, i) {
    }
    forall i: nat, j: nat ensures TogetherAt(u, v, i, j) <==> TogetherAt(v, u, j, i) {
    }
  }
}
