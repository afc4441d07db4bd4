// What the drawing of a flow with a spine promises (layoutSpine, ui/src/diagramLayout.ts;
// the connector rules, ui/src/diagramCheck.ts).
module SpineTheorem {
  import opened Geometry
  import opened Routes
  import opened SpinePath
  import opened SpineRows
  import opened SpineLanes
  import opened SpineDrawn
  import opened SpineLabels
  import opened SpineCaptions
  import opened SpineLayout
  import opened SpinePlacing
  import SpineShape

  // ---- what the drawing promises ----

  /** The middle of a node's box. */
  function MiddleOf(d: Drawing, id: string): real {
    if id in d.boxes then d.boxes[id].y + d.boxes[id].h / 2.0 else 0.0
  }

  function SpanLo(g: Graph, d: Drawing, i: nat): real
    requires i < |g.edges|
  {
    Min(MiddleOf(d, g.edges[i].from), MiddleOf(d, g.edges[i].to))
  }

  function SpanHi(g: Graph, d: Drawing, i: nat): real
    requires i < |g.edges|
  {
    Max(MiddleOf(d, g.edges[i].from), MiddleOf(d, g.edges[i].to))
  }

  /** Two lanes whose spans overlap, neither holding the other. */
  predicate LanesEntangled(f: Found, d: Drawing, i: nat, j: nat)
    requires i < |f.g.edges| && j < |f.g.edges|
  {
    && i in f.shape.lanes && j in f.shape.lanes
    && (|| SpanLo(f.g, d, i) < SpanLo(f.g, d, j) < SpanHi(f.g, d, i) < SpanHi(f.g, d, j)
        || SpanLo(f.g, d, j) < SpanLo(f.g, d, i) < SpanHi(f.g, d, j) < SpanHi(f.g, d, i))
  }

  lemma DrawnBox(looks: Looks, f: Found, d: Drawing, id: string) returns (m: Mark)
    requires Drawn(looks, f, d) && id in f.g.nodes
    ensures NodeAt(f, m, id) && HasMark(PlanOf(looks, f), m) && id in d.boxes
            && d.boxes[id] == BoxOf(PlanOf(looks, f), m)
  {
    hide Ready, NodeAt;
    m := MarkFor(f, id);
  }

  lemma DrawnRoute(looks: Looks, f: Found, d: Drawing, i: nat) returns (l: Line)
    requires Drawn(looks, f, d) && i < |f.g.edges|
    ensures var p, order := PlanOf(looks, f), OrderOf(looks, f);
            && Drawable(p, order) && OnRows(p, order) && EdgeAt(f, order, l, i) && HasLine(p, order, l)
            && i in d.routes && d.routes[i].points == LinePoints(p, order, l)
  {
    hide PlanOf, OrderOf, NodeAt, EdgeAt, LinePoints, HasLine;
    SpineDrawable(looks, f);
    l := LineFor(looks, f, i);
  }

  ghost predicate NodesApart(f: Found, d: Drawing) {
    forall id, other :: id in f.g.nodes && other in f.g.nodes && id != other ==>
      id in d.boxes && other in d.boxes && !Overlaps(d.boxes[id], d.boxes[other])
  }

  /** The nodes drawn are pairwise apart exactly when no branch's node but its last is wider
      than the way to the next column. */
  lemma NodesApartIffKeep(looks: Looks, f: Found, d: Drawing)
    requires Drawn(looks, f, d)
    ensures NodesApart(f, d) <==> AllKeep(PlanOf(looks, f))
  {
    hide LooksOk, Ready, LanesFit, OnRows, OrderOf, NodeAt, BoxOf, Overlaps, AllKeep, PlanOf, Known;
    var p := PlanOf(looks, f);
    DrawnFits(looks, f, d);
    ApartIffKeep(p);
    if AllApart(p) {
      forall id, other | id in f.g.nodes && other in f.g.nodes && id != other
        ensures id in d.boxes && other in d.boxes && !Overlaps(d.boxes[id], d.boxes[other])
      {
        var m := DrawnBox(looks, f, d, id);
        var n := DrawnBox(looks, f, d, other);
        if m == n {
          OneNode(f, m, id, other);
        }
      }
    } else {
      var m, n :| HasMark(p, m) && HasMark(p, n) && m != n && Overlaps(BoxOf(p, m), BoxOf(p, n));
      var id := DrawnNode(looks, f, d, m);
      var other := DrawnNode(looks, f, d, n);
      MarksOnce(f, m, n, id, other);
    }
  }

  lemma DrawnFits(looks: Looks, f: Found, d: Drawing)
    requires Drawn(looks, f, d)
    ensures Ready(f) && Known(f) && PlanOk(PlanOf(looks, f))
  {
    PlanFits(looks, f);
  }

  /** The node a place of the plan is for. */
  lemma DrawnNode(looks: Looks, f: Found, d: Drawing, m: Mark) returns (id: string)
    requires Drawn(looks, f, d) && HasMark(PlanOf(looks, f), m)
    ensures NodeAt(f, m, id) && id in f.g.nodes && id in d.boxes && d.boxes[id] == BoxOf(PlanOf(looks, f), m)
  {
    hide Ready, NodeAt, BoxOf;
    MarkHolds(looks, f, m);
    id :| NodeAt(f, m, id);
    MarkOnce(f, m, m, id);
  }

  lemma MarksOnce(f: Found, m: Mark, n: Mark, id: string, other: string)
    requires Ready(f) && NodeAt(f, m, id) && NodeAt(f, n, other) && m != n
    ensures id != other
  {
    hide Ready, NodeAt;
    if id == other {
      MarkOnce(f, m, n, id);
    }
  }

  /** Every edge has an axis-aligned route. */
  lemma RoutesSquare(looks: Looks, f: Found, d: Drawing, i: nat)
    requires Drawn(looks, f, d) && i < |f.g.edges|
    ensures i in d.routes && 2 <= |d.routes[i].points| <= 4 && Square(d.routes[i].points)
  {
    hide PlanOf, OrderOf, EdgeAt, LinePoints, HasLine, Ready, LanesFit, LooksOk, Drawable, Square, LineJoins;
    hide LineLeaves;
    var l := DrawnRoute(looks, f, d, i);
    LineMeets(PlanOf(looks, f), OrderOf(looks, f), l);
  }

  /** An edge's route ends on its two nodes, straight out of their sides. */
  ghost predicate RouteJoins(f: Found, d: Drawing, i: nat) {
    && i < |f.g.edges| && i in d.routes && |d.routes[i].points| >= 2
    && f.g.edges[i].from in d.boxes && f.g.edges[i].to in d.boxes
    && var q, from, to := d.routes[i].points, d.boxes[f.g.edges[i].from], d.boxes[f.g.edges[i].to];
       Joins(from, q[0], q[1]) && Joins(to, q[|q| - 1], q[|q| - 2])
  }

  /** It does so exactly when it is no arrow out of a branch's node as wide as the way to the
      next column. */
  lemma RoutesJoin(looks: Looks, f: Found, d: Drawing, l: Line, i: nat)
    requires Drawn(looks, f, d) && EdgeAt(f, OrderOf(looks, f), l, i)
    ensures RouteJoins(f, d, i) <==> LineLeaves(PlanOf(looks, f), l)
  {
    var p, order := PlanOf(looks, f), OrderOf(looks, f);
    LineEnds(looks, f, l, i);
    SpineDrawable(looks, f);
    RouteDrawn(looks, f, d, l, i);
    BoxDrawn(looks, f, d, LineFrom(p, order, l), f.g.edges[i].from);
    BoxDrawn(looks, f, d, LineTo(p, order, l), f.g.edges[i].to);
    LineMeets(p, order, l);
    hide PlanOf, OrderOf, NodeAt, EdgeAt, LinePoints, HasLine, Ready, LanesFit, LooksOk, Drawable, Joins;
    hide LineLeaves, LineFrom, LineTo, BoxOf, Drawn, OnRows, Known;
  }

  lemma RouteDrawn(looks: Looks, f: Found, d: Drawing, l: Line, i: nat)
    requires Drawn(looks, f, d) && EdgeAt(f, OrderOf(looks, f), l, i)
    ensures var p, order := PlanOf(looks, f), OrderOf(looks, f);
            && OnRows(p, order) && HasLine(p, order, l) && i in d.routes
            && d.routes[i] == LineRoute(p, order, l) && d.routes[i].points == LinePoints(p, order, l)
  {
    hide PlanOf, OrderOf, NodeAt, EdgeAt, LinePoints, HasLine, Ready;
  }

  lemma BoxDrawn(looks: Looks, f: Found, d: Drawing, m: Mark, id: string)
    requires Drawn(looks, f, d) && NodeAt(f, m, id)
    ensures HasMark(PlanOf(looks, f), m) && id in d.boxes && d.boxes[id] == BoxOf(PlanOf(looks, f), m)
  {
    hide PlanOf, OrderOf, NodeAt, EdgeAt, Ready;
  }

  /** A route passes behind a node, drawn in by 1 as check does or by less, exactly when it is an
      arrow of a branch that runs behind a box of it; so behind none, not even one it joins,
      where the branch keeps to its columns. */
  lemma RoutesPass(looks: Looks, f: Found, d: Drawing, l: Line, i: nat, m: Mark, id: string, inset: real)
    requires Drawn(looks, f, d) && EdgeAt(f, OrderOf(looks, f), l, i) && NodeAt(f, m, id)
    requires 0.0 <= inset <= 1.0
    ensures i in d.routes && id in d.boxes && HasMark(PlanOf(looks, f), m)
    ensures l.Along? ==> HasArrow(PlanOf(looks, f), l.a)
    ensures PassesNone(d.routes[i].points, Inset(d.boxes[id], inset)) <==> !LineBehind(PlanOf(looks, f), l, m, inset)
    ensures m.r < |PlanOf(looks, f).rows|
    ensures (SameBranch(l, m) ==> BranchKeeps(PlanOf(looks, f), m.r)) ==>
              PassesNone(d.routes[i].points, d.boxes[id])
  {
    hide PlanOf, OrderOf, NodeAt, EdgeAt, LinePoints, HasLine, Ready, LanesFit, LooksOk, Drawable, PassesNone;
    hide BoxOf, BranchKeeps, LineBehind, Inset;
    SpineDrawable(looks, f);
    RouteDrawn(looks, f, d, l, i);
    BoxDrawn(looks, f, d, m, id);
    LineBehindIff(PlanOf(looks, f), OrderOf(looks, f), l, m, inset);
    if SameBranch(l, m) ==> BranchKeeps(PlanOf(looks, f), m.r) {
      LinePassesNone(PlanOf(looks, f), OrderOf(looks, f), l, m);
    }
  }

  /** Two routes cross exactly when they are lanes whose spans properly overlap. They run on
      top of each other, or share an attach point, exactly when they are arrows of one branch
      the inner one's node of which reaches back that far; so never in a branch that keeps to
      its columns. */
  lemma RoutesApart(looks: Looks, f: Found, d: Drawing, l: Line, i: nat, n: Line, j: nat)
    requires Drawn(looks, f, d) && EdgeAt(f, OrderOf(looks, f), l, i) && EdgeAt(f, OrderOf(looks, f), n, j) && i != j
    ensures i < |f.g.edges| && j < |f.g.edges| && i in d.routes && j in d.routes
    ensures d.routes[i].points != [] && d.routes[j].points != []
    ensures RoutesCut(d.routes[i].points, d.routes[j].points) <==> LanesEntangled(f, d, i, j)
    ensures l.Along? ==> HasArrow(PlanOf(looks, f), l.a)
    ensures n.Along? ==> HasArrow(PlanOf(looks, f), n.a)
    ensures RoutesTogether(d.routes[i].points, d.routes[j].points) <==> LinesTogether(PlanOf(looks, f), l, n)
    ensures EndsShared(d.routes[i].points, d.routes[j].points) <==> LinesEnd(PlanOf(looks, f), l, n)
    ensures OneBranchLines(l, n) ==> l.a.r < |PlanOf(looks, f).rows|
    ensures (OneBranchLines(l, n) ==> BranchKeeps(PlanOf(looks, f), l.a.r)) ==>
              && !RoutesTogether(d.routes[i].points, d.routes[j].points)
              && !EndsShared(d.routes[i].points, d.routes[j].points)
  {
    var p, order := PlanOf(looks, f), OrderOf(looks, f);
    assert l != n by {
      if l == n {
        OneEdge(f, order, l, i, j);
      }
    }
    SpineDrawable(looks, f);
    Entangled(looks, f, d, l, n, i, j);
    RouteDrawn(looks, f, d, l, i);
    RouteDrawn(looks, f, d, n, j);
    hide PlanOf, OrderOf, EdgeAt, LinePoints, Ready, LanesFit, LooksOk, Drawable, RoutesTogether, RoutesCut;
    hide EndsShared, SpansCross, LanesEntangled, Drawn, OnRows, Known, BranchKeeps, LinesTogether, LinesEnd;
    LinesApart(p, order, l, n);
  }

  /** An edge's label, as its place in the plan has it. */
  lemma CaptionDrawn(looks: Looks, f: Found, d: Drawing, l: Line, i: nat)
    requires Drawn(looks, f, d) && EdgeAt(f, OrderOf(looks, f), l, i) && i in d.routes && d.routes[i].caption.Some?
    ensures var p, order := PlanOf(looks, f), OrderOf(looks, f);
            && Drawable(p, order) && HasCaption(p, order, l) && CaptionOf(p, order, l) == d.routes[i].caption.value
            && d.routes[i].points == LinePoints(p, order, l) && (l.Along? ==> HasLabel(p, l.a))
  {
    RouteDrawn(looks, f, d, l, i);
    SpineDrawable(looks, f);
    hide PlanOf, OrderOf, EdgeAt, LinePoints, Ready, Drawable, OnRows, Known, Drawn, LineRoute;
    if l.Along? {
      AlongCaption(PlanOf(looks, f), OrderOf(looks, f), l);
    }
  }

  /** Every label is 8 clear of its own line. */
  lemma LabelsClear(looks: Looks, f: Found, d: Drawing, i: nat)
    requires Drawn(looks, f, d) && i < |f.g.edges|
    ensures i in d.routes
    ensures d.routes[i].caption.Some? ==> ClearOf(d.routes[i].caption.value, d.routes[i].points, 8.0)
  {
    hide PlanOf, OrderOf, EdgeAt, LinePoints, Ready, LanesFit, LooksOk, Drawable, Drawn, OnRows, Known;
    hide HasCaption, CaptionOf;
    hide ClearOf, HasLine;
    DrawnFits(looks, f, d);
    var l := DrawnRoute(looks, f, d, i);
    if d.routes[i].caption.Some? {
      CaptionDrawn(looks, f, d, l, i);
      CaptionClear(PlanOf(looks, f), OrderOf(looks, f), l);
    }
  }

  /** A label lies over a node exactly when it is a step's or a branch's, reaching a node of a
      branch: a lane's never does, nor any over a node of the path. */
  lemma LabelsOver(looks: Looks, f: Found, d: Drawing, l: Line, i: nat, m: Mark, id: string)
    requires Drawn(looks, f, d) && EdgeAt(f, OrderOf(looks, f), l, i) && NodeAt(f, m, id)
    ensures i in d.routes && id in d.boxes && HasMark(PlanOf(looks, f), m)
    ensures d.routes[i].caption.Some? ==>
              && (l.Along? ==> HasLabel(PlanOf(looks, f), l.a))
              && (Overlaps(d.routes[i].caption.value, d.boxes[id]) <==> CaptionReaches(PlanOf(looks, f), l, m))
  {
    hide PlanOf, OrderOf, NodeAt, EdgeAt, LinePoints, Drawn, OnRows, Known, Ready, CaptionReaches, BoxOf, Drawable;
    hide HasCaption, CaptionOf, Overlaps, HasLabel, HasLine;
    DrawnFits(looks, f, d);
    RouteDrawn(looks, f, d, l, i);
    BoxDrawn(looks, f, d, m, id);
    if d.routes[i].caption.Some? {
      CaptionDrawn(looks, f, d, l, i);
      CaptionOver(PlanOf(looks, f), OrderOf(looks, f), l, m);
    }
  }

  /** Two labels lie over each other exactly when they are a step's and one of the branch at
      the next row, too near it, or two of one branch, too near each other. */
  lemma LabelsApart(looks: Looks, f: Found, d: Drawing, l: Line, i: nat, n: Line, j: nat)
    requires Drawn(looks, f, d) && EdgeAt(f, OrderOf(looks, f), l, i) && EdgeAt(f, OrderOf(looks, f), n, j) && i != j
    ensures i in d.routes && j in d.routes
    ensures d.routes[i].caption.Some? && d.routes[j].caption.Some? ==>
              && (l.Along? ==> HasLabel(PlanOf(looks, f), l.a)) && (n.Along? ==> HasLabel(PlanOf(looks, f), n.a))
              && (Overlaps(d.routes[i].caption.value, d.routes[j].caption.value)
                  <==> CaptionsMeet(PlanOf(looks, f), l, n))
  {
    hide PlanOf, OrderOf, EdgeAt, LinePoints, Drawn, OnRows, Known, Ready, CaptionsMeet, Drawable, HasCaption;
    hide CaptionOf;
    hide Overlaps, HasLabel, HasLine;
    DrawnFits(looks, f, d);
    RouteDrawn(looks, f, d, l, i);
    RouteDrawn(looks, f, d, n, j);
    if l == n {
      OneEdge(f, OrderOf(looks, f), l, i, j);
    }
    if d.routes[i].caption.Some? && d.routes[j].caption.Some? {
      CaptionDrawn(looks, f, d, l, i);
      CaptionDrawn(looks, f, d, n, j);
      CaptionsApart(PlanOf(looks, f), OrderOf(looks, f), l, n);
    }
  }

  lemma Entangled(looks: Looks, f: Found, d: Drawing, l: Line, n: Line, i: nat, j: nat)
    requires Drawn(looks, f, d) && EdgeAt(f, OrderOf(looks, f), l, i) && EdgeAt(f, OrderOf(looks, f), n, j)
    ensures HasLine(PlanOf(looks, f), OrderOf(looks, f), l) && HasLine(PlanOf(looks, f), OrderOf(looks, f), n)
    ensures i < |f.g.edges| && j < |f.g.edges|
    ensures SpansCross(PlanOf(looks, f), OrderOf(looks, f), l, n) <==> LanesEntangled(f, d, i, j)
  {
    hide PlanOf, OrderOf, NodeAt, Ready, LanesFit, LooksOk, SideOf, OnRows, Draws, EdgeAt, Lo, Hi, SpanLo, SpanHi;
    LineEnds(looks, f, l, i);
    LineEnds(looks, f, n, j);
    LaneIffBeside(looks, f, l, i);
    LaneIffBeside(looks, f, n, j);
    if l.Beside? && n.Beside? {
      LaneSpan(looks, f, d, l.k, i);
      LaneSpan(looks, f, d, n.k, j);
    }
  }

  lemma LaneIffBeside(looks: Looks, f: Found, l: Line, i: nat)
    requires Ready(f) && Known(f) && EdgeAt(f, OrderOf(looks, f), l, i)
    ensures l.Beside? <==> i in f.shape.lanes
  {
    Kinds(looks, f, l, i);
    EdgeKindOnce(f, i);
    hide Ready, Known, SpineShape.IsNext, SpineShape.ChainEdge;
  }

  lemma LaneSpan(looks: Looks, f: Found, d: Drawing, k: nat, i: nat)
    requires Drawn(looks, f, d) && EdgeAt(f, OrderOf(looks, f), Beside(k), i)
    ensures i < |f.g.edges| && k < |OrderOf(looks, f)|
    ensures var mids, l := SideOf(PlanOf(looks, f).rows).mids, OrderOf(looks, f)[k];
            Lo(mids, l) == SpanLo(f.g, d, i) && Hi(mids, l) == SpanHi(f.g, d, i)
  {
    LaneEnds(looks, f, k);
    hide Ready, LanesFit, LooksOk, OrderOf;
    var l := OrderOf(looks, f)[k];
    MiddleIs(looks, f, d, l.a);
    MiddleIs(looks, f, d, l.b);
    hide PlanOf, Draws, Mid;
  }

  lemma MiddleIs(looks: Looks, f: Found, d: Drawing, r: nat)
    requires Drawn(looks, f, d) && r < |f.path|
    ensures |PlanOf(looks, f).rows| == |f.path| && MiddleOf(d, f.path[r]) == Mid(PlanOf(looks, f).rows, r)
  {
    hide Ready, NodeAt, BoxOf, Mid, LanesFit, LooksOk;
    PlanLength(looks, f);
    var p, id := PlanOf(looks, f), f.path[r];
    OnPathBox(f, p, r);
    assert id in d.boxes && d.boxes[id] == BoxOf(p, OnPath(r));
  }
}
