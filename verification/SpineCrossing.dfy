// A flow layoutSpine draws with two lanes crossing (ui/src/diagramLayout.ts), whatever the
// fonts: each skips one node of the path, the second starting inside the first.
module SpineCrossing {
  import opened Geometry
  import opened Routes
  import opened Flow
  import opened SpinePath
  import opened SpineRows
  import opened SpineLanes
  import opened SpineLayout
  import opened SpineLooks
  import opened SpinePlacing
  import opened SpineTheorem
  import opened SpineSmall
  import SpineShape
  import Counting

  function Edges(): seq<FlowEdge> {
    [
      FlowEdge("a", "b", "", false, HeadAtEnd), FlowEdge("b", "c", "", false, HeadAtEnd),
      FlowEdge("c", "d", "", false, HeadAtEnd), FlowEdge("a", "c", "", false, HeadAtEnd),
      FlowEdge("b", "d", "", false, HeadAtEnd)
    ]
  }

  function Node(id: string): FlowNode {
    FlowNode(id, id, Flow.Step, None)
  }

  function Nodes(): seq<FlowNode> {
    [Node("a"), Node("b"), Node("c"), Node("d")]
  }

  /** a to b to c to d, and from a to c and from b to d. */
  function Skipping(): FlowIR {
    FlowIR(TopDown, Nodes(), Edges(), [])
  }

  const PATH := ["a", "b", "c", "d"]
  const IDS := {"a", "b", "c", "d"}
  const AT_A := SpineShape.Shape(map[], IDS, [], map[])
  const STEPPED := SpineShape.Shape(map[], IDS, [], map["a" := 0])
  const AT_B := SpineShape.Shape(map[], IDS, [3], map["a" := 0])
  const TWICE := SpineShape.Shape(map[], IDS, [3], map["a" := 0, "b" := 1])
  const AT_C := SpineShape.Shape(map[], IDS, [3, 4], map["a" := 0, "b" := 1])
  const SHAPE := SpineShape.Shape(map[], IDS, [3, 4], map["a" := 0, "b" := 1, "c" := 2])

  function FoundIt(): Found {
    Found(GraphOf(Skipping()), PATH, SHAPE)
  }

  predicate Shaped(edges: seq<FlowEdge>) {
    && |edges| == 5
    && (forall i: nat :: i < 5 ==> edges[i].from == ["a", "b", "c", "a", "b"][i])
    && (forall i: nat :: i < 5 ==> edges[i].to == ["b", "c", "d", "c", "d"][i])
  }

  lemma EdgesShaped()
    ensures Shaped(Edges())
  {
  }

  /** What the graph of the flow is. */
  ghost predicate Ways(g: Graph) {
    && g.Valid() && g.nodes == IDS
    && OutOf(g.edges, "a") == [0, 3] && OutOf(g.edges, "b") == [1, 4] && OutOf(g.edges, "c") == [2]
    && OutOf(g.edges, "d") == []
    && Next(g, "a", 0) == "b" && Next(g, "a", 1) == "c" && Next(g, "b", 0) == "c" && Next(g, "b", 1) == "d"
    && Next(g, "c", 0) == "d"
  }

  lemma OutsAre(edges: seq<FlowEdge>)
    requires Shaped(edges)
    ensures OutOf(edges, "a") == [0, 3] && OutOf(edges, "b") == [1, 4] && OutOf(edges, "c") == [2]
    ensures OutOf(edges, "d") == [] && Into(edges, "a") == []
  {
    hide OutOf, Into;
    OutIs(edges, "a", [0, 3]);
    OutIs(edges, "b", [1, 4]);
    OutIs(edges, "c", [2]);
    OutIs(edges, "d", []);
    IntoIs(edges, "a", []);
  }

  lemma ValidIs(g: Graph)
    requires Shaped(g.edges) && g.nodes == IDS
    ensures g.Valid() && forall e <- g.edges :: e.from != e.to
  {
    forall e | e in g.edges ensures e.from in g.nodes && e.to in g.nodes && e.from != e.to {
      var i :| 0 <= i < |g.edges| && g.edges[i] == e;
    }
  }

  lemma WaysAre(g: Graph)
    requires Shaped(g.edges) && g.nodes == IDS
    ensures Ways(g)
  {
    hide OutOf;
    ValidIs(g);
    OutsAre(g.edges);
  }

  lemma IdsAre()
    ensures GraphOf(Skipping()).nodes == IDS
  {
    var g, n := GraphOf(Skipping()), Nodes();
    forall k | 0 <= k < |n| ensures n[k].id in g.nodes {
      assert n[k] in n;
    }
    assert n[0].id in g.nodes && n[1].id in g.nodes && n[2].id in g.nodes && n[3].id in g.nodes;
    forall id | id in g.nodes ensures id in IDS {
      var x :| x in n && x.id == id;
    }
  }

  lemma PathIs(g: Graph)
    requires Ways(g)
    ensures LongestFrom(g, "a", {}) == PATH
  {
    hide OutOf, Next, LongestFrom;
    assert {} + {"a"} == {"a"} && {"a"} + {"b"} == {"a", "b"} && {"a"} + {"c"} == {"a", "c"};
    assert {"a", "b"} + {"c"} == {"a", "b", "c"};
    LongestEnd(g, "d", {"a", "b", "c"});
    LongestEnd(g, "d", {"a", "b"});
    LongestEnd(g, "d", {"a", "c"});
    LongestOn(g, "c", {"a", "b"}, "d");
    LongestOn(g, "c", {"a"}, "d");
    LongestFirst(g, "b", {"a"}, "c", "d");
    LongestFirst(g, "a", {}, "b", "c");
  }

  lemma ShapeIs(g: Graph)
    requires Ways(g)
    ensures SpineShape.ShapeOf(g, PATH) == Some(SHAPE)
  {
    hide OutOf, Next;
    assert Counting.Elements(PATH) == IDS;
    assert STEPPED.lanes + [3] == AT_B.lanes && TWICE.lanes + [4] == AT_C.lanes;
    assert SpineShape.ShapeAfter(g, PATH, 0, 0) == Some(AT_A);
    assert SpineShape.ShapeAfter(g, PATH, 0, 1) == Some(STEPPED);
    assert SpineShape.ShapeAfter(g, PATH, 0, 2) == Some(AT_B);
    assert SpineShape.ShapeAfter(g, PATH, 1, 0) == Some(AT_B);
    assert SpineShape.ShapeAfter(g, PATH, 1, 1) == Some(TWICE);
    assert SpineShape.ShapeAfter(g, PATH, 1, 2) == Some(AT_C);
    assert SpineShape.ShapeAfter(g, PATH, 2, 0) == Some(AT_C);
    assert SpineShape.ShapeAfter(g, PATH, 2, 1) == Some(SHAPE);
    assert SpineShape.ShapeAfter(g, PATH, 3, 0) == Some(SHAPE);
    assert SpineShape.ShapeAfter(g, PATH, 4, 0) == Some(SHAPE);
    assert |IDS| == 4;
  }

  lemma SpineIs()
    ensures IrOk(Skipping()) && Spine(Skipping()) == Some(FoundIt()) && Ready(FoundIt()) && Known(FoundIt())
  {
    hide OutOf, Into, Next, LongestFrom, SpineShape.ShapeOf, Edges, Ways, Shaped, GraphOf;
    var g := GraphOf(Skipping());
    EdgesShaped();
    IdsAre();
    assert g.edges == Edges() by { EdgesOf(); }
    ValidIs(g);
    WaysAre(g);
    PathIs(g);
    ShapeIs(g);
    OutsAre(Edges());
    assert StartOf(Nodes(), Edges()) == Some("a");
    SpineWith(Skipping(), PATH, SHAPE);
  }

  lemma EdgesOf()
    ensures GraphOf(Skipping()).edges == Edges()
  {
  }

  function Look(fonts: Fonts): Looks {
    LooksOf(fonts, Skipping(), FoundIt())
  }

  /** layoutSpine takes this flow: no box meets more lanes than it has room for. */
  lemma SkippingTaken(fonts: Fonts)
    ensures IrOk(Skipping()) && Spine(Skipping()) == Some(FoundIt()) && Known(FoundIt())
    ensures LanesFit(Look(fonts), FoundIt())
  {
    hide GraphOf, Edges, SizeOf, SideWidth, Spine, Ready, IrOk;
    SpineIs();
    var lanes := LanesOf(Look(fonts), FoundIt());
    forall r | 0 <= r < 4 ensures |Meeting(lanes, r)| <= if Look(fonts).single(PATH[r]) then 1 else 2 {
      NotSingle(fonts, r);
      AscendingShort(Meeting(lanes, r), 2);
    }
  }

  lemma NotSingle(fonts: Fonts, r: nat)
    requires r < 4
    ensures !Look(fonts).single(PATH[r])
  {
    hide GraphOf, Edges, SizeOf, SideWidth;
    assert Nodes()[r].id == PATH[r] && DistinctIds(Nodes());
    IndexUnique(Nodes(), r);
  }

  lemma {:induction false} AscendingShort(at: seq<nat>, n: nat)
    requires forall i, j :: 0 <= i < j < |at| ==> at[i] < at[j]
    requires forall i :: 0 <= i < |at| ==> at[i] < n
    ensures |at| <= n
    decreases n
  {
    if at != [] {
      AscendingShort(at[..|at| - 1], at[|at| - 1]);
    }
  }

  /** In every drawing the routes of a to c and b to d cross. */
  lemma LanesDrawnCrossing(fonts: Fonts, d: Drawing)
    requires Known(FoundIt()) && Drawn(Look(fonts), FoundIt(), d)
    ensures 3 in d.routes && 4 in d.routes && RoutesCut(d.routes[3].points, d.routes[4].points)
  {
    hide GraphOf, Drawn, PlanOf, OrderOf, Look, RoutesCut, EdgeAt, Ready, LanesEntangled, Edges;
    var looks, f := Look(fonts), FoundIt();
    EdgesShaped();
    assert f.g.edges == Edges() by { EdgesOf(); }
    var l := DrawnRoute(looks, f, d, 3);
    var n := DrawnRoute(looks, f, d, 4);
    Entangles(looks, d);
    RoutesApart(looks, f, d, l, 3, n, 4);
  }

  lemma Entangles(looks: Looks, d: Drawing)
    requires Known(FoundIt()) && Drawn(looks, FoundIt(), d)
    ensures |FoundIt().g.edges| == 5 && LanesEntangled(FoundIt(), d, 3, 4)
  {
    hide GraphOf, Drawn, PlanOf, Mid, Top, MiddleOf, Edges, Shaped;
    var f := FoundIt();
    EdgesShaped();
    assert f.g.edges == Edges() by { EdgesOf(); }
    MiddlesAscend(looks, d);
    Overlapping(f, d);
  }

  lemma Overlapping(f: Found, d: Drawing)
    requires Shaped(f.g.edges) && f.shape == SHAPE
    requires MiddleOf(d, "a") < MiddleOf(d, "b") < MiddleOf(d, "c") < MiddleOf(d, "d")
    ensures LanesEntangled(f, d, 3, 4)
  {
    hide MiddleOf;
  }

  lemma MiddlesAscend(looks: Looks, d: Drawing)
    requires Known(FoundIt()) && Drawn(looks, FoundIt(), d)
    ensures MiddleOf(d, "a") < MiddleOf(d, "b") < MiddleOf(d, "c") < MiddleOf(d, "d")
  {
    hide GraphOf, Drawn, PlanOf, Mid, Top, MiddleOf, Above, RowHeight, Gap;
    var f := FoundIt();
    MiddleIs(looks, f, d, 0);
    MiddleIs(looks, f, d, 1);
    MiddleIs(looks, f, d, 2);
    MiddleIs(looks, f, d, 3);
    DrawnFits(looks, f, d);
    var p := PlanOf(looks, f);
    SpineRows.RowsApart(p.rows, 0, 1);
    SpineRows.RowsApart(p.rows, 1, 2);
    SpineRows.RowsApart(p.rows, 2, 3);
  }
}
