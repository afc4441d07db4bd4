// layoutSpine whole: a flow with a main path and branches is drawn, every
// node once and every edge once (ui/src/diagramLayout.ts).
module SpineLayout {
  import opened Counting
  import opened Geometry
  import opened Flow
  import opened SpinePath
  import SpineShape
  import opened SpineRows
  import opened SpineLanes
  import opened SpineDrawn

  /** What a drawing needs of the nodes and labels: sizes, and which boxes take one
      lane. */
  datatype Looks = Looks(w: string -> real, h: string -> real, single: string -> bool, sideW: real,
                         text: nat -> Option<LabelSize>)

  ghost predicate LooksOk(k: Looks) {
    && k.sideW >= 16.0
    && (forall id :: k.w(id) >= 16.0 && k.h(id) >= 16.0 && (k.single(id) || k.h(id) >= 20.0))
    && (forall i: nat :: k.text(i).Some? ==> k.text(i).value.w >= 0 && k.text(i).value.h >= 0)
  }

  function GraphOf(ir: FlowIR): Graph {
    Graph(set n <- ir.nodes :: n.id, ir.edges)
  }

  ghost predicate IrOk(ir: FlowIR) {
    ir.nodes != [] && GraphOf(ir).Valid()
  }

  /** The first node with no way in, or the first. */
  function StartOf(nodes: seq<FlowNode>, edges: seq<FlowEdge>): (id: Option<string>)
    ensures id.Some? ==> exists i :: 0 <= i < |nodes| && nodes[i].id == id.value
  {
    if nodes == [] then None
    else if Into(edges, nodes[0].id) == [] then Some(nodes[0].id)
    else
      var id := StartOf(nodes[1..], edges);
      assert id.Some? ==> exists i :: 1 <= i < |nodes| && nodes[i].id == id.value by {
        if id.Some? {
          var i :| 0 <= i < |nodes[1..]| && nodes[1..][i].id == id.value;
          assert nodes[i + 1].id == id.value;
        }
      }
      id
  }

  /** The path and what hangs off it. */
  datatype Found = Found(g: Graph, path: seq<string>, shape: SpineShape.Shape)

  /** The spine of a flow that has one. */
  function Spine(ir: FlowIR): Option<Found>
    requires IrOk(ir)
  {
    if ir.direction != TopDown || ir.zones != [] || (exists e :: e in ir.edges && e.from == e.to) then None
    else
      var g, first := GraphOf(ir), StartOf(ir.nodes, ir.edges);
      var start := if first.Some? then first.value else ir.nodes[0].id;
      assert start in g.nodes;
      var path := LongestFrom(g, start, {});
      var shape := SpineShape.ShapeOf(g, path);
      if shape.None? then None else Some(Found(g, path, shape.value))
  }

  ghost predicate Ready(f: Found) {
    && SpineShape.PathOk(f.g, f.path) && f.path != [] && SpineShape.ShapeOf(f.g, f.path) == Some(f.shape)
    && (forall i :: 0 <= i < |f.path| - 1 ==> Joined(f.g, f.path[i], f.path[i + 1]))
    && (forall e <- f.g.edges :: e.from != e.to)
  }

  lemma {:induction false} PathKnown(g: Graph, path: seq<string>, id: string, stack: set<string>)
    requires g.Valid() && id in g.nodes && SimplePath(g, path, id, stack)
    ensures forall n <- path :: n in g.nodes
  {
    if |path| > 1 {
      var r := EdgeRank(g, id, path[1]);
      RankLeads(g, id, path[1]);
      PathKnown(g, path[1..], path[1], stack + {id});
      assert path == [path[0]] + path[1..];
    }
  }

  lemma SpineReady(ir: FlowIR)
    requires IrOk(ir) && Spine(ir).Some?
    ensures Ready(Spine(ir).value) && Spine(ir).value.g == GraphOf(ir)
  {
    hide SpineShape.ShapeOf;
    var f, g := Spine(ir).value, GraphOf(ir);
    LongestBeats(g, f.path[0], {});
    SimplePathVisits(g, f.path, f.path[0], {});
    PathKnown(g, f.path, f.path[0], {});
  }

  /** A branch is no longer than the rest of the path: it would be the path otherwise. So none
      hangs from the path's last node. */
  lemma BranchShorter(ir: FlowIR, r: nat)
    requires IrOk(ir) && Spine(ir).Some?
    ensures var f := Spine(ir).value;
            r < |f.path| && f.path[r] in f.shape.chains ==> 0 < |f.shape.chains[f.path[r]].nodes| < |f.path| - r
  {
    hide SpineShape.ShapeOf, SpineShape.ChainOk, SpineShape.NodesOnce, SpineShape.EdgesOnce, Beats;
    var f := Spine(ir).value;
    SpineReady(ir);
    if r < |f.path| && f.path[r] in f.shape.chains {
      LongestBeats(f.g, f.path[0], {});
      SimplePathVisits(f.g, f.path, f.path[0], {});
      BranchPath(f, r);
      BeatsLonger(f.g, f.path, f.path[..r + 1] + f.shape.chains[f.path[r]].nodes);
    }
  }

  lemma BeatsLonger(g: Graph, p: seq<string>, q: seq<string>)
    requires Beats(g, p, q)
    ensures |q| <= |p|
  {
  }

  /** Down the path and out along a branch is a simple path. */
  lemma BranchPath(f: Found, r: nat)
    requires Ready(f) && r < |f.path| && f.path[r] in f.shape.chains
    ensures var nodes := f.shape.chains[f.path[r]].nodes;
            |nodes| > 0 && SimplePath(f.g, f.path[..r + 1] + nodes, f.path[0], {})
  {
    hide SpineShape.ShapeOf, SpineShape.EdgesOnce, SpineShape.NodesOnce, SpineShape.ChainOk, Joined;
    var id := f.path[r];
    var c := f.shape.chains[id];
    SpineShape.ShapeResult(f.g, f.path);
    SpineShape.ChainOf(f.g, f.path, f.shape, id);
    SpineShape.ChainJoined(f.g, f.path, id, c);
    ChainApart(f, id);
    WayOut(f.g, f.path, r, c.nodes);
  }

  lemma WayOut(g: Graph, path: seq<string>, r: nat, nodes: seq<string>)
    requires r < |path| && |nodes| > 0 && forall i, j :: 0 <= i < j < |path| ==> path[i] != path[j]
    requires forall i :: 0 <= i < |path| - 1 ==> Joined(g, path[i], path[i + 1])
    requires forall k :: 0 <= k < |nodes| ==> nodes[k] !in path
    requires forall j, k :: 0 <= j < k < |nodes| ==> nodes[j] != nodes[k]
    requires Joined(g, path[r], nodes[0])
    requires forall k :: 0 <= k < |nodes| - 1 ==> Joined(g, nodes[k], nodes[k + 1])
    ensures SimplePath(g, path[..r + 1] + nodes, path[0], {})
  {
    hide Joined, SimplePath;
    var q := path[..r + 1] + nodes;
    forall i, j | 0 <= i < j < |q| ensures q[i] != q[j] {
      if i <= r < j {
        assert q[i] == path[i] && path[i] in path && q[j] == nodes[j - r - 1];
      }
    }
    forall i | 0 <= i < |q| - 1 ensures Joined(g, q[i], q[i + 1]) {
      if i < r {
        assert q[i] == path[i] && q[i + 1] == path[i + 1];
      } else if i > r {
        var k := i - r - 1;
        assert q[i] == nodes[k] && q[i + 1] == nodes[k + 1];
      }
    }
    VisitsSimplePath(g, q, path[0], {});
  }

  lemma ChainApart(f: Found, id: string)
    requires SpineShape.NodesOnce(f.g, f.path, f.shape) && id in f.shape.chains
    ensures var nodes := f.shape.chains[id].nodes;
            && (forall k :: 0 <= k < |nodes| ==> nodes[k] !in f.path)
            && forall j, k :: 0 <= j < k < |nodes| ==> nodes[j] != nodes[k]
  {
    hide SpineShape.NodesOnce, SpineShape.LinkAt;
    SpineShape.ChainOf(f.g, f.path, f.shape, id);
  }

  // ---- rows and lanes ----

  function LinksOf(looks: Looks, c: SpineShape.Chain): seq<Link>
    requires |c.edges| == |c.nodes|
  {
    seq(|c.nodes|, k requires 0 <= k < |c.nodes| =>
        Link(looks.w(c.nodes[k]), looks.h(c.nodes[k]), looks.text(c.edges[k])))
  }

  ghost predicate Known(f: Found) {
    && (forall id <- f.shape.chains :: |f.shape.chains[id].edges| == |f.shape.chains[id].nodes|)
    && (forall i <- f.shape.lanes :: i < |f.g.edges| && f.g.edges[i].from in f.path && f.g.edges[i].to in f.path)
  }

  lemma ReadyKnown(f: Found)
    requires Ready(f)
    ensures Known(f)
  {
    hide SpineShape.ShapeOf;
    SpineShape.ShapeResult(f.g, f.path);
    ChainsEven(f);
    LanesOnPath(f);
  }

  lemma ChainsEven(f: Found)
    requires SpineShape.NodesOnce(f.g, f.path, f.shape)
    ensures forall id <- f.shape.chains :: |f.shape.chains[id].edges| == |f.shape.chains[id].nodes|
  {
    forall id | id in f.shape.chains ensures |f.shape.chains[id].edges| == |f.shape.chains[id].nodes| {
      SpineShape.ChainOf(f.g, f.path, f.shape, id);
    }
  }

  lemma LanesOnPath(f: Found)
    requires SpineShape.EdgesOnce(f.g, f.path, f.shape, |f.path|, 0)
    ensures forall i <- f.shape.lanes :: i < |f.g.edges| && f.g.edges[i].from in f.path && f.g.edges[i].to in f.path
  {
    forall i | i in f.shape.lanes ensures i < |f.g.edges| && f.g.edges[i].from in f.path && f.g.edges[i].to in f.path {
      assert SpineShape.Seen(f.g, f.path, |f.path|, 0, i) && SpineShape.LaneOk(f.g, f.path, f.shape, i);
    }
  }

  function RowAt(looks: Looks, f: Found, k: nat): Row
    requires Known(f) && k < |f.path|
  {
    var id, sh := f.path[k], f.shape;
    Row(looks.w(id), looks.h(id), if id in sh.chains then LinksOf(looks, sh.chains[id]) else [],
        if id in sh.next then looks.text(sh.next[id]) else None, looks.single(id))
  }

  function PlanOf(looks: Looks, f: Found): Plan
    requires Known(f)
  {
    Plan(seq(|f.path|, k requires 0 <= k < |f.path| => RowAt(looks, f, k)), looks.sideW)
  }

  function LaneAt(looks: Looks, f: Found, i: nat): Lane
    requires i < |f.g.edges| && f.g.edges[i].from in f.path && f.g.edges[i].to in f.path
  {
    Lane(i, Position(f.path, f.g.edges[i].from), Position(f.path, f.g.edges[i].to), looks.text(i))
  }

  function LanesOf(looks: Looks, f: Found): seq<Lane>
    requires Known(f)
  {
    seq(|f.shape.lanes|, j requires 0 <= j < |f.shape.lanes| =>
        assert f.shape.lanes[j] in f.shape.lanes;
        LaneAt(looks, f, f.shape.lanes[j]))
  }

  function OrderOf(looks: Looks, f: Found): seq<Lane>
    requires Known(f)
  {
    Nested(SideOf(PlanOf(looks, f).rows).mids, LanesOf(looks, f))
  }

  /** No box meets more lanes than its left side takes. */
  predicate LanesFit(looks: Looks, f: Found)
    requires Known(f)
  {
    forall r :: 0 <= r < |f.path| ==> |Meeting(LanesOf(looks, f), r)| <= if looks.single(f.path[r]) then 1 else 2
  }

  lemma PlanFits(looks: Looks, f: Found)
    requires LooksOk(looks) && Known(f)
    ensures PlanOk(PlanOf(looks, f)) && |PlanOf(looks, f).rows| == |f.path|
  {
    var p := PlanOf(looks, f);
    forall k: nat | k < |p.rows| ensures RowOk(p.rows[k]) {
      assert p.rows[k] == RowAt(looks, f, k);
    }
  }

  lemma LanesFitting(looks: Looks, f: Found)
    requires LooksOk(looks) && Ready(f) && Known(f) && LanesFit(looks, f)
    ensures Fitting(SideOf(PlanOf(looks, f).rows), LanesOf(looks, f)) && Texts(LanesOf(looks, f))
  {
    hide Mid, RowAt, SpineShape.ShapeOf, SpineShape.PathOk, PlanOk, Joined, Meeting;
    var p, lanes := PlanOf(looks, f), LanesOf(looks, f);
    PlanFits(looks, f);
    assert RowsOk(p.rows) by { PlanRows(p); }
    var s := SideOf(p.rows);
    forall r: nat, t: nat | r < t < |s.mids| ensures s.mids[r] + 40.0 <= s.mids[t] {
      SpineRows.RowsApart(p.rows, r, t);
    }
    forall j | 0 <= j < |lanes| ensures lanes[j].a != lanes[j].b && lanes[j].a < |s.mids| && lanes[j].b < |s.mids| {
      var i := f.shape.lanes[j];
      assert i in f.shape.lanes && f.g.edges[i] in f.g.edges;
      assert lanes[j] == LaneAt(looks, f, i);
    }
    forall r | 0 <= r < |s.mids| ensures s.single[r] == looks.single(f.path[r]) {
      assert p.rows[r] == RowAt(looks, f, r);
      RowSingle(looks, f, r);
    }
  }

  lemma PlanRows(p: Plan)
    requires PlanOk(p)
    ensures RowsOk(p.rows)
  {
  }

  lemma RowSingle(looks: Looks, f: Found, r: nat)
    requires Known(f) && r < |f.path|
    ensures RowAt(looks, f, r).single == looks.single(f.path[r])
  {
  }

  /** A flow with a spine whose lanes fit can be drawn. */
  lemma SpineDrawable(looks: Looks, f: Found)
    requires LooksOk(looks) && Ready(f) && Known(f) && LanesFit(looks, f)
    ensures Drawable(PlanOf(looks, f), OrderOf(looks, f)) && OnRows(PlanOf(looks, f), OrderOf(looks, f))
  {
    var p, lanes := PlanOf(looks, f), LanesOf(looks, f);
    var s := SideOf(p.rows);
    hide PlanOf, LanesOf, SideOf, Ready, LanesFit, Fitting;
    assert PlanOk(p) by { PlanFits(looks, f); }
    LanesFitting(looks, f);
    NestedFits(s, lanes);
    NestedKeeps(s.mids, lanes);
    hide Nested;
    DrawableOnRows(p, Nested(s.mids, lanes));
  }

  // ---- every node once ----

  predicate NodeAt(f: Found, m: Mark, id: string) {
    match m
    case OnPath(r) => r < |f.path| && f.path[r] == id
    case Hung(r, k) => r < |f.path| && SpineShape.Holds(f.shape, f.path[r], k, id)
  }

  lemma MarkHolds(looks: Looks, f: Found, m: Mark)
    requires Known(f)
    ensures HasMark(PlanOf(looks, f), m) <==> exists id :: NodeAt(f, m, id)
  {
    if m.r < |f.path| {
      assert PlanOf(looks, f).rows[m.r] == RowAt(looks, f, m.r);
      if HasMark(PlanOf(looks, f), m) {
        assert NodeAt(f, m, if m.Hung? then f.shape.chains[f.path[m.r]].nodes[m.k] else f.path[m.r]);
      }
    }
  }

  /** A node of the path or a branch has one place. */
  lemma MarkOnce(f: Found, m: Mark, n: Mark, id: string)
    requires Ready(f) && NodeAt(f, m, id) && NodeAt(f, n, id)
    ensures m == n && id in f.g.nodes
  {
    hide SpineShape.ShapeOf;
    SpineShape.ShapeResult(f.g, f.path);
    hide SpineShape.EdgesOnce, SpineShape.ChainOk, SpineShape.Classify;
    assert id in f.shape.placed;
    SpineShape.EveryNodeOnce(f.g, f.path, id);
    hide SpineShape.NodesOnce;
    assert m.OnPath? ==> id in f.path;
    assert n.OnPath? ==> id in f.path;
  }

  /** And every node has one. */
  lemma MarkFor(f: Found, id: string) returns (m: Mark)
    requires Ready(f) && id in f.g.nodes
    ensures NodeAt(f, m, id)
  {
    hide SpineShape.ShapeOf, SpineShape.NodesOnce, SpineShape.EdgesOnce, SpineShape.ChainOk;
    if id in f.path {
      m := OnPath(Position(f.path, id));
    } else {
      SpineShape.EveryNodeOnce(f.g, f.path, id);
      var on, k :| SpineShape.Holds(f.shape, on, k, id);
      SpineShape.ShapeResult(f.g, f.path);
      SpineShape.ChainOf(f.g, f.path, f.shape, on);
      m := Hung(Position(f.path, on), k);
    }
  }

  // ---- every edge once ----

  predicate EdgeAt(f: Found, order: seq<Lane>, l: Line, i: nat) {
    match l
    case Along(Down(r)) => r + 1 < |f.path| && f.path[r] in f.shape.next && f.shape.next[f.path[r]] == i
    case Along(Out(r, k)) => r < |f.path| && SpineShape.ChainEdge(f.shape, f.path[r], k, i)
    case Beside(k) => k < |order| && order[k].edge == i
  }

  /** The lanes drawn are the lanes found. */
  lemma OrderHolds(looks: Looks, f: Found, i: nat)
    requires Known(f)
    ensures i in f.shape.lanes <==> exists k: nat :: k < |OrderOf(looks, f)| && OrderOf(looks, f)[k].edge == i
  {
    var lanes, order := LanesOf(looks, f), OrderOf(looks, f);
    NestedKeeps(SideOf(PlanOf(looks, f).rows).mids, lanes);
    hide Nested, PlanOf, SideOf;
    if i in f.shape.lanes {
      var l := lanes[Position(f.shape.lanes, i)];
      assert l in order;
      var k :| 0 <= k < |order| && order[k] == l;
      assert order[k].edge == i;
    }
    forall k: nat | k < |order| && order[k].edge == i ensures i in f.shape.lanes {
      assert order[k] in lanes;
    }
  }

  lemma LaneOnce(looks: Looks, f: Found, j: nat, k: nat)
    requires Ready(f) && Known(f) && j < k < |OrderOf(looks, f)|
    ensures OrderOf(looks, f)[j].edge != OrderOf(looks, f)[k].edge
  {
    var lanes, order := LanesOf(looks, f), OrderOf(looks, f);
    NestedKeeps(SideOf(PlanOf(looks, f).rows).mids, lanes);
    hide Nested, PlanOf, SideOf, Ready;
    assert Different(f.shape.lanes) by { LanesDiffer(f); }
    StillDifferent(lanes, order);
    var p, q := order[j], order[k];
    assert p in lanes && q in lanes;
    assert p.edge == q.edge ==> p == q;
  }

  lemma LanesDiffer(f: Found)
    requires Ready(f)
    ensures Different(f.shape.lanes)
  {
    hide SpineShape.ShapeOf;
    SpineShape.ShapeResult(f.g, f.path);
  }

  lemma ChainsOnPath(f: Found, id: string)
    requires Ready(f) && id in f.shape.chains
    ensures id in f.path
  {
    hide SpineShape.ShapeOf;
    SpineShape.ShapeResult(f.g, f.path);
    hide SpineShape.ChainOk;
  }

  lemma NextSteps(f: Found, id: string)
    requires Ready(f) && id in f.shape.next
    ensures var i := f.shape.next[id];
            && i < |f.g.edges| && f.g.edges[i].from == id && id in f.path && Position(f.path, id) + 1 < |f.path|
            && f.path[Position(f.path, id) + 1] == f.g.edges[i].to
  {
    hide SpineShape.ShapeOf;
    SpineShape.ShapeResult(f.g, f.path);
    assert SpineShape.NextOk(f.g, f.path, id, f.shape.next[id]);
  }

  lemma PathOnce(f: Found, r: nat)
    requires Ready(f) && r < |f.path|
    ensures Position(f.path, f.path[r]) == r
  {
    hide SpineShape.ShapeOf;
  }

  /** A line stands for one edge, from the box the edge leaves to the one it enters. */
  lemma LineEnds(looks: Looks, f: Found, l: Line, i: nat)
    requires Ready(f) && Known(f) && OnRows(PlanOf(looks, f), OrderOf(looks, f)) && EdgeAt(f, OrderOf(looks, f), l, i)
    ensures i < |f.g.edges| && HasLine(PlanOf(looks, f), OrderOf(looks, f), l)
    ensures NodeAt(f, LineFrom(PlanOf(looks, f), OrderOf(looks, f), l), f.g.edges[i].from)
    ensures NodeAt(f, LineTo(PlanOf(looks, f), OrderOf(looks, f), l), f.g.edges[i].to)
  {
    match l
    case Beside(k) =>
      LaneEnds(looks, f, k);
    case Along(Down(r)) =>
      NextSteps(f, f.path[r]);
      PathOnce(f, r);
      hide Ready;
    case Along(Out(r, k)) =>
      OutEnds(f, r, k, i);
      MarkHolds(looks, f, Hung(r, k));
      hide Ready, PlanOf;
  }

  lemma OutEnds(f: Found, r: nat, k: nat, i: nat)
    requires Ready(f) && Known(f) && EdgeAt(f, [], Along(Out(r, k)), i)
    ensures i < |f.g.edges| && NodeAt(f, ArrowFrom(Out(r, k)), f.g.edges[i].from)
            && NodeAt(f, ArrowTo(Out(r, k)), f.g.edges[i].to)
  {
    hide SpineShape.ShapeOf, SpineShape.NodesOnce, SpineShape.EdgesOnce, SpineShape.ChainEdge, SpineShape.Holds;
    hide SpineShape.PathOk;
    SpineShape.ShapeResult(f.g, f.path);
    SpineShape.ChainEdgeEnds(f.g, f.path, f.shape, f.path[r], k, i);
  }

  lemma LaneEnds(looks: Looks, f: Found, k: nat)
    requires Known(f) && k < |OrderOf(looks, f)|
    ensures var l := OrderOf(looks, f)[k];
            && l.edge < |f.g.edges| && l.edge in f.shape.lanes && l.a < |f.path| && l.b < |f.path|
            && f.path[l.a] == f.g.edges[l.edge].from && f.path[l.b] == f.g.edges[l.edge].to
  {
    var lanes, order := LanesOf(looks, f), OrderOf(looks, f);
    NestedKeeps(SideOf(PlanOf(looks, f).rows).mids, lanes);
    hide Nested, PlanOf, SideOf;
    assert order[k] in order;
    var j :| 0 <= j < |lanes| && lanes[j] == order[k];
    assert f.shape.lanes[j] in f.shape.lanes;
  }

  lemma StepThere(f: Found, r: nat)
    requires Ready(f) && r + 1 < |f.path|
    ensures f.path[r] in f.shape.next
  {
    hide SpineShape.ShapeOf;
    SpineShape.EveryStepDrawn(f.g, f.path, r);
  }

  /** No edge has two lines. */
  lemma LineOnce(looks: Looks, f: Found, l: Line, n: Line, i: nat)
    requires Ready(f) && Known(f) && EdgeAt(f, OrderOf(looks, f), l, i) && EdgeAt(f, OrderOf(looks, f), n, i)
    ensures l == n
  {
    var order := OrderOf(looks, f);
    Kinds(looks, f, l, i);
    Kinds(looks, f, n, i);
    EdgeKindOnce(f, i);
    hide Ready, Known, OrderOf, SpineShape.IsNext, SpineShape.ChainEdge;
    if l.Beside? && n.Beside? {
      if l.k < n.k {
        LaneOnce(looks, f, l.k, n.k);
      } else if n.k < l.k {
        LaneOnce(looks, f, n.k, l.k);
      }
    } else if l.Along? && n.Along? {
      PathOnce(f, l.a.r);
      PathOnce(f, n.a.r);
    }
  }

  /** What kind of edge a line stands for. */
  lemma Kinds(looks: Looks, f: Found, l: Line, i: nat)
    requires Ready(f) && Known(f) && EdgeAt(f, OrderOf(looks, f), l, i)
    ensures i < |f.g.edges|
    ensures l.Beside? ==> SpineShape.IsLane(f.shape, i)
    ensures l.Along? && l.a.Down? ==> SpineShape.IsNext(f.g, f.shape, i) && f.path[l.a.r] == f.g.edges[i].from
    ensures l.Along? && l.a.Out? ==> SpineShape.ChainEdge(f.shape, f.path[l.a.r], l.a.k, i)
  {
    match l
    case Beside(k) => LaneEnds(looks, f, k);
    case Along(Down(r)) => NextSteps(f, f.path[r]);
    case Along(Out(r, k)) => OutEnds(f, r, k, i);
  }

  lemma EdgeKindOnce(f: Found, i: nat)
    requires Ready(f) && i < |f.g.edges|
    ensures !(SpineShape.IsNext(f.g, f.shape, i) && SpineShape.IsLane(f.shape, i))
    ensures forall id, k: nat :: SpineShape.ChainEdge(f.shape, id, k, i) ==>
              !SpineShape.IsNext(f.g, f.shape, i) && !SpineShape.IsLane(f.shape, i)
    ensures forall id, j: nat, id', k: nat ::
              SpineShape.ChainEdge(f.shape, id, j, i) && SpineShape.ChainEdge(f.shape, id', k, i) ==>
                id == id' && j == k
  {
    hide SpineShape.ShapeOf;
    SpineShape.EveryEdgeOnce(f.g, f.path, i);
  }

  /** Every edge has one. */
  lemma LineFor(looks: Looks, f: Found, i: nat) returns (l: Line)
    requires Ready(f) && Known(f) && i < |f.g.edges|
    ensures EdgeAt(f, OrderOf(looks, f), l, i)
  {
    hide SpineShape.ShapeOf, OrderOf;
    SpineShape.EveryEdgeClassed(f.g, f.path, i);
    if SpineShape.IsNext(f.g, f.shape, i) {
      var id := f.g.edges[i].from;
      NextSteps(f, id);
      l := Along(Down(Position(f.path, id)));
    } else if SpineShape.IsLane(f.shape, i) {
      OrderHolds(looks, f, i);
      var k: nat :| k < |OrderOf(looks, f)| && OrderOf(looks, f)[k].edge == i;
      l := Beside(k);
    } else {
      var id, k: nat :| SpineShape.ChainEdge(f.shape, id, k, i);
      ChainsOnPath(f, id);
      l := Along(Out(Position(f.path, id), k));
    }
  }
}
