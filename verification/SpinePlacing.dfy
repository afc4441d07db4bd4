// A flow with a spine drawn, node by node and edge by edge (layoutSpine,
// ui/src/diagramLayout.ts).
module SpinePlacing {
  import opened Geometry
  import opened Flow
  import opened SpinePath
  import opened SpineRows
  import opened SpineLanes
  import opened SpineDrawn
  import opened SpineLayout
  import opened SpineSizes
  import opened SpineLooks
  import SpineShape

  datatype Drawing = Drawing(boxes: map<string, Rect>, routes: map<nat, Route>)

  ghost predicate BoxesDrawn(f: Found, p: Plan, boxes: map<string, Rect>, done: set<Mark>) {
    forall m, id :: m in done && NodeAt(f, m, id) ==> HasMark(p, m) && id in boxes && boxes[id] == BoxOf(p, m)
  }

  ghost predicate RoutesDrawn(f: Found, p: Plan, order: seq<Lane>, routes: map<nat, Route>, done: set<Line>)
    requires OnRows(p, order)
  {
    forall l, i :: l in done && EdgeAt(f, order, l, i) ==>
      HasLine(p, order, l) && i in routes && routes[i] == LineRoute(p, order, l)
  }

  /** Each node has its box, each edge its route. */
  ghost predicate Draws(f: Found, p: Plan, order: seq<Lane>, d: Drawing)
    requires OnRows(p, order)
  {
    && d.boxes.Keys == f.g.nodes && (forall i: nat :: i in d.routes <==> i < |f.g.edges|)
    && (forall m, id :: NodeAt(f, m, id) ==> HasMark(p, m) && id in d.boxes && d.boxes[id] == BoxOf(p, m))
    && (forall l, i :: EdgeAt(f, order, l, i) ==>
        HasLine(p, order, l) && i in d.routes && d.routes[i] == LineRoute(p, order, l))
  }

  /** The flow drawn. */
  ghost predicate Drawn(looks: Looks, f: Found, d: Drawing) {
    && LooksOk(looks) && Ready(f) && Known(f) && LanesFit(looks, f)
    && OnRows(PlanOf(looks, f), OrderOf(looks, f)) && Draws(f, PlanOf(looks, f), OrderOf(looks, f), d)
  }

  lemma BoxAdded(f: Found, p: Plan, boxes: map<string, Rect>, done: set<Mark>, m: Mark, id: string)
    requires Ready(f) && BoxesDrawn(f, p, boxes, done) && NodeAt(f, m, id) && HasMark(p, m)
    ensures BoxesDrawn(f, p, boxes[id := BoxOf(p, m)], done + {m})
  {
    hide Ready, NodeAt, HasMark, BoxOf;
    var after := boxes[id := BoxOf(p, m)];
    forall n, other | n in done + {m} && NodeAt(f, n, other)
      ensures HasMark(p, n) && other in after && after[other] == BoxOf(p, n)
    {
      if other == id {
        MarkOnce(f, m, n, id);
      }
      if n == m {
        OneNode(f, m, id, other);
      }
    }
  }

  lemma OneNode(f: Found, m: Mark, id: string, other: string)
    requires NodeAt(f, m, id) && NodeAt(f, m, other)
    ensures id == other
  {
  }

  lemma RouteAdded(looks: Looks, f: Found, p: Plan, order: seq<Lane>, routes: map<nat, Route>, done: set<Line>, l: Line,
                   i: nat)
    requires Ready(f) && Known(f) && p == PlanOf(looks, f) && order == OrderOf(looks, f) && OnRows(p, order)
    requires RoutesDrawn(f, p, order, routes, done) && EdgeAt(f, order, l, i) && HasLine(p, order, l)
    ensures RoutesDrawn(f, p, order, routes[i := LineRoute(p, order, l)], done + {l})
  {
    hide Ready, Known, EdgeAt, LineRoute, PlanOf, OrderOf, OnRows, HasLine;
    var after := routes[i := LineRoute(p, order, l)];
    forall n, j | n in done + {l} && EdgeAt(f, order, n, j)
      ensures HasLine(p, order, n) && j in after && after[j] == LineRoute(p, order, n)
    {
      if j == i {
        LineOnce(looks, f, l, n, i);
      }
      if n == l {
        OneEdge(f, order, l, i, j);
      }
    }
  }

  lemma OneEdge(f: Found, order: seq<Lane>, l: Line, i: nat, j: nat)
    requires EdgeAt(f, order, l, i) && EdgeAt(f, order, l, j)
    ensures i == j
  {
  }

  /** A row of the plan, as its node and its branch. */
  lemma RowIs(looks: Looks, f: Found, r: nat)
    requires Known(f) && r < |f.path|
    ensures |PlanOf(looks, f).rows| == |f.path| && PlanOf(looks, f).rows[r] == RowAt(looks, f, r)
    ensures |PlanOf(looks, f).rows[r].chain|
            == if f.path[r] in f.shape.chains then |f.shape.chains[f.path[r]].nodes| else 0
  {
  }

  /** The boxes: down the path, then out along each branch. */
  method PlaceBoxes(looks: Looks, f: Found, p: Plan) returns (boxes: map<string, Rect>)
    requires Ready(f) && Known(f) && p == PlanOf(looks, f)
    ensures forall m, id :: NodeAt(f, m, id) ==> HasMark(p, m) && id in boxes && boxes[id] == BoxOf(p, m)
    ensures boxes.Keys == f.g.nodes
  {
    hide Ready, Known, PlanOf, NodeAt, BoxOf;
    boxes := map[];
    ghost var done: set<Mark> := {};
    assert |p.rows| == |f.path| by { PlanLength(looks, f); }
    var mids := LayRows(p.rows);
    var colX := LayColumns(p.rows, p.sideW, Right(p.rows));
    for r := 0 to |f.path|
      invariant BoxesDrawn(f, p, boxes, done) && boxes.Keys <= f.g.nodes
      invariant forall m :: HasMark(p, m) && m.r < r ==> m in done
    {
      var row, id := p.rows[r], f.path[r];
      RowIs(looks, f, r);
      var box := Rect(0.0 - row.w / 2.0, mids[r] - row.h / 2.0, row.w, row.h);
      assert box == BoxOf(p, OnPath(r)) && HasMark(p, OnPath(r)) && NodeAt(f, OnPath(r), id) by { OnPathBox(f, p, r); }
      BoxAdded(f, p, boxes, done, OnPath(r), id);
      MarkOnce(f, OnPath(r), OnPath(r), id);
      boxes, done := boxes[id := box], done + {OnPath(r)};
      assert row in p.rows;
      for k := 0 to |row.chain|
        invariant BoxesDrawn(f, p, boxes, done) && boxes.Keys <= f.g.nodes
        invariant forall m :: HasMark(p, m) && (m.r < r || (m.r == r && (m.Hung? ==> m.k < k))) ==> m in done
      {
        var link, node := row.chain[k], f.shape.chains[id].nodes[k];
        var hung := Rect(colX[k], mids[r] - link.h / 2.0, link.w, link.h);
        assert hung == BoxOf(p, Hung(r, k)) && HasMark(p, Hung(r, k)) && NodeAt(f, Hung(r, k), node)
        by { HungBox(f, p, r, k); }
        BoxAdded(f, p, boxes, done, Hung(r, k), node);
        MarkOnce(f, Hung(r, k), Hung(r, k), node);
        boxes, done := boxes[node := hung], done + {Hung(r, k)};
      }
    }
    AllPlaced(looks, f, p, boxes, done);
  }

  lemma PlanLength(looks: Looks, f: Found)
    requires Known(f)
    ensures |PlanOf(looks, f).rows| == |f.path|
  {
  }

  lemma OnPathBox(f: Found, p: Plan, r: nat)
    requires r < |p.rows| == |f.path|
    ensures HasMark(p, OnPath(r)) && NodeAt(f, OnPath(r), f.path[r])
    ensures BoxOf(p, OnPath(r))
            == Rect(0.0 - p.rows[r].w / 2.0, Mid(p.rows, r) - p.rows[r].h / 2.0, p.rows[r].w, p.rows[r].h)
  {
    hide Mid;
  }

  lemma HungBox(f: Found, p: Plan, r: nat, k: nat)
    requires r < |p.rows| == |f.path| && f.path[r] in f.shape.chains
             && k < |p.rows[r].chain| == |f.shape.chains[f.path[r]].nodes|
    ensures HasMark(p, Hung(r, k)) && NodeAt(f, Hung(r, k), f.shape.chains[f.path[r]].nodes[k])
    ensures BoxOf(p, Hung(r, k))
            == Rect(ColumnX(p.rows, p.sideW, Right(p.rows), k), Mid(p.rows, r) - p.rows[r].chain[k].h / 2.0,
                                         p.rows[r].chain[k].w, p.rows[r].chain[k].h)
  {
    hide Mid, ColumnX, Right;
  }

  lemma AllPlaced(looks: Looks, f: Found, p: Plan, boxes: map<string, Rect>, done: set<Mark>)
    requires Ready(f) && Known(f) && p == PlanOf(looks, f) && BoxesDrawn(f, p, boxes, done) && boxes.Keys <= f.g.nodes
    requires forall m :: HasMark(p, m) && m.r < |f.path| ==> m in done
    ensures forall m, id :: NodeAt(f, m, id) ==> HasMark(p, m) && id in boxes && boxes[id] == BoxOf(p, m)
    ensures boxes.Keys == f.g.nodes
  {
    hide Ready, Known, PlanOf, NodeAt, BoxOf, HasMark;
    forall m, id | NodeAt(f, m, id) ensures HasMark(p, m) && id in boxes && boxes[id] == BoxOf(p, m) {
      MarkHolds(looks, f, m);
      assert m.r < |f.path| by { NodeRow(f, m, id); }
    }
    forall id | id in f.g.nodes ensures id in boxes {
      var m := MarkFor(f, id);
    }
  }

  lemma NodeRow(f: Found, m: Mark, id: string)
    requires NodeAt(f, m, id)
    ensures m.r < |f.path|
  {
  }

  /** The steps down the path. */
  method PlaceSteps(looks: Looks, f: Found, p: Plan, order: seq<Lane>)
      returns (routes: map<nat, Route>, ghost done: set<Line>)
    requires Ready(f) && Known(f) && p == PlanOf(looks, f) && order == OrderOf(looks, f) && OnRows(p, order)
    ensures RoutesDrawn(f, p, order, routes, done) && forall i <- routes.Keys :: i < |f.g.edges|
    ensures forall t: nat :: t + 1 < |f.path| ==> Along(Down(t)) in done
  {
    hide Ready, Known, PlanOf, OrderOf, EdgeAt, LineRoute, HasLine, ArrowRoute, OnRows;
    routes, done := map[], {};
    assert |p.rows| == |f.path| by { PlanLength(looks, f); }
    for r := 0 to |f.path|
      invariant RoutesDrawn(f, p, order, routes, done) && forall i <- routes.Keys :: i < |f.g.edges|
      invariant forall t: nat :: t < r && t + 1 < |f.path| ==> Along(Down(t)) in done
    {
      if r + 1 < |f.path| {
        var l := Along(Down(r));
        assert HasLine(p, order, l) && LineRoute(p, order, l) == ArrowRoute(p, Down(r))
        by { AlongRoute(p, order, Down(r)); }
        StepThere(f, r);
        var i := f.shape.next[f.path[r]];
        assert EdgeAt(f, order, l, i) by { DownEdge(f, order, r); }
        assert i < |f.g.edges| by { LineEnds(looks, f, l, i); }
        RouteAdded(looks, f, p, order, routes, done, l, i);
        routes, done := routes[i := ArrowRoute(p, Down(r))], done + {l};
      }
    }
  }

  /** The links of every branch. */
  method PlaceBranches(looks: Looks, f: Found, p: Plan, order: seq<Lane>, steps: map<nat, Route>,
                       ghost stepped: set<Line>)
    returns (routes: map<nat, Route>, ghost done: set<Line>)
    requires Ready(f) && Known(f) && p == PlanOf(looks, f) && order == OrderOf(looks, f) && OnRows(p, order)
    requires RoutesDrawn(f, p, order, steps, stepped) && forall i <- steps.Keys :: i < |f.g.edges|
    ensures RoutesDrawn(f, p, order, routes, done) && forall i <- routes.Keys :: i < |f.g.edges|
    ensures stepped <= done && forall t: nat, j: nat :: HasArrow(p, Out(t, j)) ==> Along(Out(t, j)) in done
  {
    hide Ready, Known, PlanOf, OrderOf, EdgeAt, LineRoute, HasLine, ArrowRoute, OnRows, RoutesDrawn;
    routes, done := steps, stepped;
    assert |p.rows| == |f.path| by { PlanLength(looks, f); }
    for r := 0 to |f.path|
      invariant RoutesDrawn(f, p, order, routes, done) && forall i <- routes.Keys :: i < |f.g.edges|
      invariant stepped <= done && forall t: nat, j: nat :: t < r && HasArrow(p, Out(t, j)) ==> Along(Out(t, j)) in done
    {
      RowIs(looks, f, r);
      for k := 0 to |p.rows[r].chain|
        invariant RoutesDrawn(f, p, order, routes, done) && forall i <- routes.Keys :: i < |f.g.edges|
        invariant stepped <= done
        invariant forall t: nat, j: nat :: (t < r || (t == r && j < k)) && HasArrow(p, Out(t, j)) ==>
                    Along(Out(t, j)) in done
      {
        var l := Along(Out(r, k));
        assert HasLine(p, order, l) && LineRoute(p, order, l) == ArrowRoute(p, Out(r, k))
        by { AlongRoute(p, order, Out(r, k)); }
        assert |f.shape.chains[f.path[r]].edges| == |f.shape.chains[f.path[r]].nodes|
        by { assert Known(f); KnownChain(f, f.path[r]); }
        var i := f.shape.chains[f.path[r]].edges[k];
        assert EdgeAt(f, order, l, i) by { OutEdge(f, order, r, k); }
        assert i < |f.g.edges| by { LineEnds(looks, f, l, i); }
        RouteAdded(looks, f, p, order, routes, done, l, i);
        routes, done := routes[i := ArrowRoute(p, Out(r, k))], done + {l};
      }
    }
  }

  /** The routes: the steps down, the branches, then the lanes. */
  method PlaceRoutes(looks: Looks, f: Found, p: Plan, order: seq<Lane>, lanes: seq<Route>)
      returns (routes: map<nat, Route>)
    requires Ready(f) && Known(f) && p == PlanOf(looks, f) && order == OrderOf(looks, f) && OnRows(p, order)
    requires |lanes| == |order| && forall k: nat :: k < |order| ==>
               lanes[k] == RouteOf(SideOf(p.rows), order, LeftOf(p.rows), k)
    ensures forall l, i :: EdgeAt(f, order, l, i) ==>
              HasLine(p, order, l) && i in routes && routes[i] == LineRoute(p, order, l)
    ensures forall i: nat :: i in routes <==> i < |f.g.edges|
  {
    hide Ready, Known, PlanOf, OrderOf, EdgeAt, LineRoute, HasLine, ArrowRoute, RouteOf, OnRows, RoutesDrawn;
    var steps, stepped := PlaceSteps(looks, f, p, order);
    ghost var branched;
    routes, branched := PlaceBranches(looks, f, p, order, steps, stepped);
    ghost var done := branched;
    for k := 0 to |order|
      invariant RoutesDrawn(f, p, order, routes, done) && forall i <- routes.Keys :: i < |f.g.edges|
      invariant branched <= done && forall j: nat :: j < k ==> Beside(j) in done
    {
      var l, i := Beside(k), order[k].edge;
      assert HasLine(p, order, l) && EdgeAt(f, order, l, i) && LineRoute(p, order, l) == lanes[k]
      by { BesideRoute(f, p, order, k); }
      assert i < |f.g.edges| by { LineEnds(looks, f, l, i); }
      RouteAdded(looks, f, p, order, routes, done, l, i);
      routes, done := routes[i := lanes[k]], done + {l};
    }
    AllRouted(looks, f, p, order, routes, done);
  }

  lemma KnownChain(f: Found, id: string)
    requires Known(f) && id in f.shape.chains
    ensures |f.shape.chains[id].edges| == |f.shape.chains[id].nodes|
  {
  }

  lemma AlongRoute(p: Plan, order: seq<Lane>, a: Arrow)
    requires HasArrow(p, a) && OnRows(p, order)
    ensures HasLine(p, order, Along(a)) && LineRoute(p, order, Along(a)) == ArrowRoute(p, a)
  {
  }

  lemma BesideRoute(f: Found, p: Plan, order: seq<Lane>, k: nat)
    requires k < |order| && OnRows(p, order)
    ensures HasLine(p, order, Beside(k)) && EdgeAt(f, order, Beside(k), order[k].edge)
    ensures LineRoute(p, order, Beside(k)) == RouteOf(SideOf(p.rows), order, LeftOf(p.rows), k)
  {
    hide RouteOf;
  }

  lemma DownEdge(f: Found, order: seq<Lane>, r: nat)
    requires r + 1 < |f.path| && f.path[r] in f.shape.next
    ensures EdgeAt(f, order, Along(Down(r)), f.shape.next[f.path[r]])
  {
  }

  lemma OutEdge(f: Found, order: seq<Lane>, r: nat, k: nat)
    requires r < |f.path| && f.path[r] in f.shape.chains && k < |f.shape.chains[f.path[r]].edges|
    ensures EdgeAt(f, order, Along(Out(r, k)), f.shape.chains[f.path[r]].edges[k])
  {
  }

  lemma AllRouted(looks: Looks, f: Found, p: Plan, order: seq<Lane>, routes: map<nat, Route>, done: set<Line>)
    requires Ready(f) && Known(f) && p == PlanOf(looks, f) && order == OrderOf(looks, f) && OnRows(p, order)
    requires RoutesDrawn(f, p, order, routes, done) && forall i <- routes.Keys :: i < |f.g.edges|
    requires forall t: nat :: t + 1 < |f.path| ==> Along(Down(t)) in done
    requires forall t: nat, j: nat :: HasArrow(p, Out(t, j)) ==> Along(Out(t, j)) in done
    requires forall j: nat :: j < |order| ==> Beside(j) in done
    ensures forall l, i :: EdgeAt(f, order, l, i) ==>
              HasLine(p, order, l) && i in routes && routes[i] == LineRoute(p, order, l)
    ensures forall i: nat :: i in routes <==> i < |f.g.edges|
  {
    hide Ready, Known, PlanOf, OrderOf, EdgeAt, LineRoute, OnRows;
    assert |p.rows| == |f.path| by { PlanLength(looks, f); }
    forall l, i | EdgeAt(f, order, l, i)
      ensures HasLine(p, order, l) && i in routes && routes[i] == LineRoute(p, order, l)
    {
      LineEnds(looks, f, l, i);
      match l
      case Beside(k) => assert k < |order|;
      case Along(Down(r)) => assert r + 1 < |f.path|;
      case Along(Out(r, k)) => assert HasArrow(p, Out(r, k));
    }
    forall i: nat | i < |f.g.edges| ensures i in routes {
      var l := LineFor(looks, f, i);
    }
  }

  /** layoutSpine: nothing when the flow has no such shape or its lanes do not fit, else
      every node's size and place, every edge's route and label. */
  method LayoutSpine(fonts: Fonts, ir: FlowIR) returns (d: Option<Drawing>, sizes: map<string, Dim>)
    requires IrOk(ir)
    ensures Spine(ir).None? ==> d.None?
    ensures Spine(ir).Some? ==>
              var f := Spine(ir).value; Known(f) && (d.Some? <==> LanesFit(LooksOf(fonts, ir, f), f))
    ensures d.Some? ==>
              var f := Spine(ir).value; var looks := LooksOf(fonts, ir, f);
              && Drawn(looks, f, d.value)
              && (forall id :: id in sizes <==> HasNode(ir.nodes, id))
              && (forall id <- sizes :: sizes[id] == SizeOf(fonts, ir, f, id))
  {
    hide SpineShape.ShapeOf, LongestFrom, Ready, Known, LanesFit, GraphOf, LooksOk, SizeOf, OnRows, LooksOf;
    sizes := map[];
    var found := FindSpine(ir);
    if found.None? {
      return None, sizes;
    }
    var f := found.value;
    SpineReady(ir);
    ReadyKnown(f);
    var looks := LooksOf(fonts, ir, f);
    LooksFit(fonts, ir, f);
    if !LanesFit(looks, f) {
      return None, sizes;
    }
    OrderOnRows(looks, f);
    sizes := SizeNodes(fonts, ir, f);
    var boxes := PlaceBoxes(looks, f, PlanOf(looks, f));
    var routes := LayRoutes(looks, f);
    return Some(Drawing(boxes, routes)), sizes;
  }

  /** The lanes, laid and taken with the other routes. */
  method LayRoutes(looks: Looks, f: Found) returns (routes: map<nat, Route>)
    requires LooksOk(looks) && Ready(f) && Known(f) && LanesFit(looks, f) && OnRows(PlanOf(looks, f), OrderOf(looks, f))
    ensures var p, order := PlanOf(looks, f), OrderOf(looks, f);
            forall l, i :: EdgeAt(f, order, l, i) ==>
              HasLine(p, order, l) && i in routes && routes[i] == LineRoute(p, order, l)
    ensures forall i: nat :: i in routes <==> i < |f.g.edges|
  {
    hide Ready, LooksOk, LanesFit, EdgeAt, LineRoute, HasLine, PlanOf, LanesOf, OnRows, RouteOf, Nested, SideOf;
    var p, lanes := PlanOf(looks, f), LanesOf(looks, f);
    var s := SideOf(p.rows);
    assert forall l <- lanes :: Within(s.mids, l) by {
      LanesFitting(looks, f);
    }
    var order, routed := LayLanes(s, lanes, LeftOf(p.rows));
    routes := PlaceRoutes(looks, f, p, order, routed);
  }

  /** The longest path and its shape. */
  method FindSpine(ir: FlowIR) returns (found: Option<Found>)
    requires IrOk(ir)
    ensures found == Spine(ir)
  {
    hide SpineShape.ShapeOf, LongestFrom, Into;
    if ir.direction != TopDown || ir.zones != [] || exists e :: e in ir.edges && e.from == e.to {
      return None;
    }
    var g, first := GraphOf(ir), StartOf(ir.nodes, ir.edges);
    var start := if first.Some? then first.value else ir.nodes[0].id;
    assert start in g.nodes;
    var walk := new Walk(g);
    var path := walk.Longest(start);
    var shape := SpineShape.FindShape(g, path);
    return if shape.None? then None else Some(Found(g, path, shape.value));
  }

  lemma OrderOnRows(looks: Looks, f: Found)
    requires LooksOk(looks) && Ready(f) && Known(f) && LanesFit(looks, f)
    ensures OnRows(PlanOf(looks, f), OrderOf(looks, f))
  {
    LanesFitting(looks, f);
    NestedKeeps(SideOf(PlanOf(looks, f).rows).mids, LanesOf(looks, f));
    hide Nested, LanesOf, LanesFit, Ready;
  }
}
