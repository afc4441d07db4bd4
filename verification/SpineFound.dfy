// When layoutSpine takes a flow, and where its path starts (ui/src/diagramLayout.ts): the
// refusals of the walk outward and of the counts, said of the flow itself.
module SpineFound {
  import opened Geometry
  import opened Flow
  import opened SpinePath
  import opened SpineShape
  import opened SpineLayout

  // ---- the start ----

  /** No edge leads to the i-th node written. */
  predicate Unentered(ir: FlowIR, i: nat)
    requires i < |ir.nodes|
  {
    forall e <- ir.edges :: e.to != ir.nodes[i].id
  }

  /** The first node written that no edge enters; the first of all where every one is. */
  ghost predicate IsStart(ir: FlowIR, i: nat) {
    && i < |ir.nodes|
    && if Unentered(ir, i) then forall j: nat :: j < i ==> !Unentered(ir, j)
       else i == 0 && forall j: nat :: j < |ir.nodes| ==> !Unentered(ir, j)
  }

  lemma EnteredIff(ir: FlowIR, i: nat)
    requires i < |ir.nodes|
    ensures Unentered(ir, i) <==> Into(ir.edges, ir.nodes[i].id) == []
  {
    hide Into;
    var into := Into(ir.edges, ir.nodes[i].id);
    if into != [] {
      assert into[0] in into;
      assert ir.edges[into[0]] in ir.edges;
    } else {
      forall e | e in ir.edges ensures e.to != ir.nodes[i].id {
        var k :| 0 <= k < |ir.edges| && ir.edges[k] == e;
        assert k !in into;
      }
    }
  }

  lemma {:induction false} StartAt(nodes: seq<FlowNode>, edges: seq<FlowEdge>, i: nat)
    requires i <= |nodes| && (i < |nodes| ==> Into(edges, nodes[i].id) == [])
    requires forall j :: 0 <= j < i ==> Into(edges, nodes[j].id) != []
    ensures StartOf(nodes, edges) == if i < |nodes| then Some(nodes[i].id) else None
  {
    hide Into;
    if i > 0 {
      assert forall j :: 0 <= j < |nodes| - 1 ==> nodes[1..][j] == nodes[j + 1];
      StartAt(nodes[1..], edges, i - 1);
    }
  }

  /** The node the search for a start comes to. */
  function StartId(ir: FlowIR): string
    requires IrOk(ir)
  {
    var first := StartOf(ir.nodes, ir.edges);
    if first.Some? then first.value else ir.nodes[0].id
  }

  lemma StartIs(ir: FlowIR, i: nat)
    requires IrOk(ir) && IsStart(ir, i)
    ensures StartId(ir) == ir.nodes[i].id
  {
    hide Unentered, Into;
    forall j: nat | j < |ir.nodes| ensures Unentered(ir, j) <==> Into(ir.edges, ir.nodes[j].id) == [] {
      EnteredIff(ir, j);
    }
    StartAt(ir.nodes, ir.edges, if Unentered(ir, i) then i else |ir.nodes|);
  }

  // ---- a path with branches and nothing else ----

  /** Somewhere on the path a way along edges starts that ends here. */
  ghost predicate Reached(g: Graph, path: seq<string>, n: string) {
    exists way: seq<string> :: IsWay(g, path, way, n)
  }

  ghost predicate IsWay(g: Graph, path: seq<string>, way: seq<string>, n: string) {
    && way != [] && way[0] in path && way[|way| - 1] == n
    && forall k :: 0 <= k < |way| - 1 ==> Joined(g, way[k], way[k + 1])
  }

  /** A node off the path has one way in and at most one on, which leads off the path too. */
  predicate Strung(g: Graph, path: seq<string>, n: string) {
    && |Into(g.edges, n)| == 1 && |OutOf(g.edges, n)| <= 1
    && forall i :: 0 <= i < |g.edges| && g.edges[i].from == n ==> g.edges[i].to !in path
  }

  /** Two edges out of one node of the path, both off it. */
  predicate TwoBranches(g: Graph, path: seq<string>, i: nat, j: nat) {
    && i < j < |g.edges| && g.edges[i].from == g.edges[j].from && g.edges[i].from in path
    && g.edges[i].to !in path && g.edges[j].to !in path
  }

  predicate OffPathStrung(g: Graph, path: seq<string>) {
    && (forall n <- g.nodes :: n !in path ==> Strung(g, path, n))
    && forall i: nat, j: nat :: i < j < |g.edges| ==> !TwoBranches(g, path, i, j)
  }

  /** Every node is on the path or strung off it, at most one branch to a node of the path. */
  ghost predicate BranchesOnly(g: Graph, path: seq<string>) {
    OffPathStrung(g, path) && forall n <- g.nodes :: Reached(g, path, n)
  }

  predicate NoLoops(g: Graph) {
    forall e <- g.edges :: e.from != e.to
  }

  // ---- a shape has only branches ----

  lemma ShapeStrung(g: Graph, path: seq<string>, n: string)
    requires PathOk(g, path) && ShapeOf(g, path).Some? && n in g.nodes && n !in path
    ensures Strung(g, path, n) && Reached(g, path, n)
  {
    hide ShapeOf, EdgesOnce, ChainOk;
    ShapeResult(g, path);
    var sh := ShapeOf(g, path).value;
    var id, k :| Holds(sh, id, k, n);
    ChainOf(g, path, sh, id);
    ChainStrung(g, path, sh, id, k);
    ChainReaches(g, path, id, sh.chains[id], k);
  }

  lemma ChainStrung(g: Graph, path: seq<string>, sh: SpineShape.Shape, id: string, k: nat)
    requires NodesOnce(g, path, sh) && id in sh.chains && k < |sh.chains[id].nodes|
    ensures Strung(g, path, sh.chains[id].nodes[k])
  {
    hide NodesOnce, Into, OutOf, ChainOk;
    ChainOf(g, path, sh, id);
    ChainDegrees(g, path, id, sh.chains[id], k);
    var n := sh.chains[id].nodes[k];
    forall i: nat | i < |g.edges| && g.edges[i].from == n ensures g.edges[i].to !in path {
      assert Holds(sh, id, k, n);
      LinkOf(g, path, sh, id, k, i);
      ChainEdgeEnds(g, path, sh, id, k + 1, i);
    }
  }

  lemma ChainDegrees(g: Graph, path: seq<string>, id: string, c: Chain, k: nat)
    requires ChainOk(g, path, id, c) && k < |c.nodes|
    ensures |Into(g.edges, c.nodes[k])| == 1 && |OutOf(g.edges, c.nodes[k])| <= 1
  {
    hide Into, OutOf;
    if k < |c.nodes| - 1 {
      assert OutOf(g.edges, c.nodes[k]) == [c.edges[k + 1]];
    }
  }

  lemma ChainReaches(g: Graph, path: seq<string>, id: string, c: Chain, k: nat)
    requires ChainOk(g, path, id, c) && id in path && k < |c.nodes|
    ensures Reached(g, path, c.nodes[k])
  {
    hide ChainOk, Joined;
    ChainJoined(g, path, id, c);
    var way := [id] + c.nodes[..k + 1];
    forall j | 0 <= j < |way| - 1 ensures Joined(g, way[j], way[j + 1]) {
      assert way[j + 1] == c.nodes[j];
      if j > 0 {
        assert way[j] == c.nodes[j - 1];
      }
    }
    assert IsWay(g, path, way, c.nodes[k]);
  }

  lemma PathReached(g: Graph, path: seq<string>, n: string)
    requires n in path
    ensures Reached(g, path, n)
  {
    assert IsWay(g, path, [n], n);
  }

  lemma OneBranchEach(g: Graph, path: seq<string>, i: nat, j: nat)
    requires PathOk(g, path) && ShapeOf(g, path).Some? && i < j < |g.edges|
    ensures !TwoBranches(g, path, i, j)
  {
    hide ShapeOf, NodesOnce, EdgesOnce, ChainOk;
    ShapeResult(g, path);
    if TwoBranches(g, path, i, j) {
      BranchStart(g, path, i);
      BranchStart(g, path, j);
    }
  }

  lemma BranchStart(g: Graph, path: seq<string>, i: nat)
    requires PathOk(g, path) && ShapeOf(g, path).Some? && i < |g.edges|
    requires g.edges[i].from in path && g.edges[i].to !in path
    ensures ChainEdge(ShapeOf(g, path).value, g.edges[i].from, 0, i)
  {
    hide ShapeOf;
    ShapeResult(g, path);
    var sh := ShapeOf(g, path).value;
    assert Seen(g, path, |path|, 0, i);
    if IsNext(g, sh, i) {
      NextOnPath(g, path, sh, i);
    }
  }

  lemma ShapeBranches(g: Graph, path: seq<string>)
    requires PathOk(g, path) && ShapeOf(g, path).Some?
    ensures BranchesOnly(g, path)
  {
    hide ShapeOf, Strung, Reached, TwoBranches;
    forall n | n in g.nodes ensures (n !in path ==> Strung(g, path, n)) && Reached(g, path, n) {
      if n in path {
        PathReached(g, path, n);
      } else {
        ShapeStrung(g, path, n);
      }
    }
    forall i: nat, j: nat | i < j < |g.edges| ensures !TwoBranches(g, path, i, j) {
      OneBranchEach(g, path, i, j);
    }
  }

  // ---- a flow with only branches has its shape ----

  /** Where a node off the path is placed, so is every node an edge comes from. */
  predicate BackPlaced(g: Graph, path: seq<string>, placed: set<string>) {
    forall i :: 0 <= i < |g.edges| && g.edges[i].to in placed && g.edges[i].to !in path ==> g.edges[i].from in placed
  }

  predicate EnteredFrom(g: Graph, placed: set<string>, n: string) {
    forall i :: 0 <= i < |g.edges| && g.edges[i].to == n ==> g.edges[i].from in placed
  }

  lemma OnlyWayIn(g: Graph, n: string, i: nat, j: nat)
    requires |Into(g.edges, n)| == 1 && i < |g.edges| && j < |g.edges| && g.edges[i].to == n == g.edges[j].to
    ensures i == j
  {
    hide Into;
    var into := Into(g.edges, n);
    assert i in into && j in into;
  }

  /** The walk outward never refuses. */
  lemma {:induction false} WalkCompletes(g: Graph, path: seq<string>, placed: set<string>, c: Chain)
    requires g.Valid() && OffPathStrung(g, path) && NoLoops(g) && c.nodes != [] && LastOf(c) in g.nodes
    requires LastOf(c) !in path && LastOf(c) !in placed
    requires BackPlaced(g, path, placed) && EnteredFrom(g, placed, LastOf(c))
    ensures WalkChain(g, path, placed, c).Some?
    decreases |g.nodes - placed|
  {
    hide Into, OutOf, TwoBranches;
    var cur := LastOf(c);
    assert Strung(g, path, cur);
    FewerLeft(g.nodes, placed, cur);
    var out := OutOf(g.edges, cur);
    if out != [] {
      var next := Next(g, cur, 0);
      assert out[0] in out;
      var e := g.edges[out[0]];
      assert e in g.edges && e.to == next && e.from == cur;
      assert Strung(g, path, next);
      forall i | 0 <= i < |g.edges| && g.edges[i].to == next ensures g.edges[i].from == cur {
        OnlyWayIn(g, next, i, out[0]);
      }
      assert EnteredFrom(g, placed + {cur}, next);
      WalkCompletes(g, path, placed + {cur}, Chain(c.edges + [out[0]], c.nodes + [next]));
    }
  }

  lemma PlacedBack(g: Graph, path: seq<string>, sh: SpineShape.Shape)
    requires PathOk(g, path) && NodesOnce(g, path, sh) && OffPathStrung(g, path)
    ensures BackPlaced(g, path, sh.placed)
  {
    hide ChainOk, TwoBranches, Into, OutOf;
    forall i | 0 <= i < |g.edges| && g.edges[i].to in sh.placed && g.edges[i].to !in path
      ensures g.edges[i].from in sh.placed
    {
      var n := g.edges[i].to;
      var id, k :| Holds(sh, id, k, n);
      ChainHasEdge(g, path, sh, id, k);
      var e := sh.chains[id].edges[k];
      ChainEdgeEnds(g, path, sh, id, k, e);
      assert Strung(g, path, n);
      OnlyWayIn(g, n, i, e);
    }
  }

  lemma ChainHasEdge(g: Graph, path: seq<string>, sh: SpineShape.Shape, id: string, k: int)
    requires NodesOnce(g, path, sh) && id in sh.chains && 0 <= k < |sh.chains[id].nodes|
    ensures k < |sh.chains[id].edges| && ChainEdge(sh, id, k, sh.chains[id].edges[k])
  {
    ChainOf(g, path, sh, id);
  }

  /** No edge out of the path is refused. */
  lemma ClassifyTakes(g: Graph, path: seq<string>, sh: SpineShape.Shape, k: nat, n: nat)
    requires PathOk(g, path) && k < |path| && n < |OutOf(g.edges, path[k])| && NoLoops(g) && OffPathStrung(g, path)
    requires NodesOnce(g, path, sh) && EdgesOnce(g, path, sh, k, n)
    ensures Classify(g, path, sh, k, n).Some?
  {
    hide NodesOnce, EdgesOnce, Seen, OffPathStrung, BackPlaced, NoLoops, WalkChain;
    var id, i, to := path[k], OutOf(g.edges, path[k])[n], Next(g, path[k], n);
    assert i in OutOf(g.edges, path[k]);
    if to !in path {
      NotHungYet(g, path, sh, k, n);
      PlacedBack(g, path, sh);
      NotPlacedYet(g, path, sh, i);
      assert EnteredFrom(g, sh.placed, to) by { OneEntry(g, path, sh, i); }
      WalkCompletes(g, path, sh.placed, Chain([i], [to]));
    }
  }

  lemma OneEntry(g: Graph, path: seq<string>, sh: SpineShape.Shape, i: nat)
    requires g.Valid() && OffPathStrung(g, path) && NodesOnce(g, path, sh)
    requires i < |g.edges| && g.edges[i].from in path && g.edges[i].to !in path
    ensures EnteredFrom(g, sh.placed, g.edges[i].to)
  {
    hide ChainOk, TwoBranches, Into, OutOf, Holds;
    assert g.edges[i] in g.edges;
    assert Strung(g, path, g.edges[i].to);
    forall j | 0 <= j < |g.edges| && g.edges[j].to == g.edges[i].to ensures g.edges[j].from in sh.placed {
      OnlyWayIn(g, g.edges[i].to, i, j);
    }
  }

  lemma OneOff(g: Graph, path: seq<string>, i: nat, j: nat)
    requires OffPathStrung(g, path) && i < |g.edges| && j < |g.edges|
    requires g.edges[i].from == g.edges[j].from && g.edges[i].from in path
    requires g.edges[i].to !in path && g.edges[j].to !in path
    ensures i == j
  {
    hide Strung;
    var a, b := if i < j then i else j, if i < j then j else i;
    assert a < b ==> !TwoBranches(g, path, a, b);
  }

  lemma NotHungYet(g: Graph, path: seq<string>, sh: SpineShape.Shape, k: nat, n: nat)
    requires PathOk(g, path) && k < |path| && n < |OutOf(g.edges, path[k])| && OffPathStrung(g, path)
    requires NodesOnce(g, path, sh) && EdgesOnce(g, path, sh, k, n) && Next(g, path[k], n) !in path
    ensures path[k] !in sh.chains
  {
    hide Seen, ChainOk, Into, OutOf, LanesAndSteps, AllClassed, NodesOnce;
    var id, i := path[k], OutOf(g.edges, path[k])[n];
    assert i in OutOf(g.edges, id);
    SeenGrows(g, path, k, n, i);
    if id in sh.chains {
      ChainStartOffPath(g, path, sh, id);
      var e := sh.chains[id].edges[0];
      ChainEdgeEnds(g, path, sh, id, 0, e);
      assert Seen(g, path, k, n, e) && e != i;
      OneOff(g, path, e, i);
    }
  }

  lemma NotPlacedYet(g: Graph, path: seq<string>, sh: SpineShape.Shape, i: nat)
    requires PathOk(g, path) && NodesOnce(g, path, sh) && OffPathStrung(g, path)
    requires i < |g.edges| && g.edges[i].from in path && g.edges[i].to !in path && g.edges[i].from !in sh.chains
    ensures g.edges[i].to !in sh.placed
  {
    hide ChainOk, TwoBranches, Into, OutOf;
    var n := g.edges[i].to;
    if n in sh.placed {
      var id, k :| Holds(sh, id, k, n);
      ChainHasEdge(g, path, sh, id, k);
      var e := sh.chains[id].edges[k];
      ChainEdgeEnds(g, path, sh, id, k, e);
      assert Strung(g, path, n);
      OnlyWayIn(g, n, i, e);
      if k > 0 {
        HeldOffPath(g, path, sh, id, k - 1);
      }
    }
  }

  lemma HeldOffPath(g: Graph, path: seq<string>, sh: SpineShape.Shape, id: string, k: nat)
    requires NodesOnce(g, path, sh) && id in sh.chains && k < |sh.chains[id].nodes|
    ensures sh.chains[id].nodes[k] !in path
  {
    ChainOf(g, path, sh, id);
  }

  lemma {:induction false} NeverRefused(g: Graph, path: seq<string>, k: nat, n: nat)
    requires PathOk(g, path) && NoLoops(g) && OffPathStrung(g, path)
    requires if k < |path| then n <= |OutOf(g.edges, path[k])| else k == |path| && n == 0
    ensures ShapeAfter(g, path, k, n).Some?
    decreases k, n
  {
    hide Classify, OffPathStrung, NodesOnce, EdgesOnce;
    if n > 0 {
      NeverRefused(g, path, k, n - 1);
      ShapeHolds(g, path, k, n - 1);
      ClassifyTakes(g, path, ShapeAfter(g, path, k, n - 1).value, k, n - 1);
    } else if k > 0 {
      NeverRefused(g, path, k - 1, |OutOf(g.edges, path[k - 1])|);
    }
  }

  /** An edge out of a node placed leads to another. */
  lemma OnwardPlaced(g: Graph, path: seq<string>, sh: SpineShape.Shape, i: nat)
    requires PathOk(g, path) && NodesOnce(g, path, sh) && EdgesOnce(g, path, sh, |path|, 0)
    requires i < |g.edges| && g.edges[i].from in sh.placed
    ensures g.edges[i].to in sh.placed
  {
    hide ChainOk, Into, OutOf, StepsOn;
    var from := g.edges[i].from;
    if from in path {
      assert Seen(g, path, |path|, 0, i);
      if IsNext(g, sh, i) {
        NextOnPath(g, path, sh, i);
      } else if IsLane(sh, i) {
        assert LaneOk(g, path, sh, i);
      } else {
        ChainEdgeEnds(g, path, sh, from, 0, i);
      }
    } else {
      var id, k :| Holds(sh, id, k, from);
      LinkOf(g, path, sh, id, k, i);
      ChainEdgeEnds(g, path, sh, id, k + 1, i);
    }
  }

  lemma {:induction false} WayPlaced(g: Graph, path: seq<string>, sh: SpineShape.Shape, way: seq<string>, k: nat)
    requires PathOk(g, path) && NodesOnce(g, path, sh) && EdgesOnce(g, path, sh, |path|, 0)
    requires k < |way| && IsWay(g, path, way, way[|way| - 1])
    ensures way[k] in sh.placed
  {
    hide EdgesOnce, ChainOk, Holds;
    if k > 0 {
      WayPlaced(g, path, sh, way, k - 1);
      assert Joined(g, way[k - 1], way[k]);
      var r := EdgeRank(g, way[k - 1], way[k]);
      var i := OutOf(g.edges, way[k - 1])[r];
      assert i in OutOf(g.edges, way[k - 1]) && g.edges[i].to == Next(g, way[k - 1], r) == way[k];
      OnwardPlaced(g, path, sh, i);
    }
  }

  lemma BranchesShape(g: Graph, path: seq<string>)
    requires PathOk(g, path) && NoLoops(g) && BranchesOnly(g, path)
    ensures ShapeOf(g, path).Some?
  {
    hide ShapeAfter, OffPathStrung, NodesOnce, EdgesOnce, IsWay;
    NeverRefused(g, path, |path|, 0);
    ShapeHolds(g, path, |path|, 0);
    var sh := ShapeAfter(g, path, |path|, 0).value;
    forall n | n in g.nodes ensures n in sh.placed {
      assert Reached(g, path, n);
      var way :| IsWay(g, path, way, n);
      WayEnd(g, path, way, n);
      WayPlaced(g, path, sh, way, |way| - 1);
    }
    PlacedKnown(g, path, sh);
    assert sh.placed == g.nodes;
  }

  lemma WayEnd(g: Graph, path: seq<string>, way: seq<string>, n: string)
    requires IsWay(g, path, way, n)
    ensures way != [] && way[|way| - 1] == n
  {
  }

  lemma PlacedKnown(g: Graph, path: seq<string>, sh: SpineShape.Shape)
    requires NodesOnce(g, path, sh)
    ensures sh.placed <= g.nodes
  {
  }

  /** A path has a shape exactly when every node off it is strung off it, at most one branch
      to a node of the path. */
  lemma ShapeIff(g: Graph, path: seq<string>)
    requires PathOk(g, path) && NoLoops(g)
    ensures ShapeOf(g, path).Some? <==> BranchesOnly(g, path)
  {
    hide ShapeOf, BranchesOnly;
    if ShapeOf(g, path).Some? {
      ShapeBranches(g, path);
    }
    if BranchesOnly(g, path) {
      BranchesShape(g, path);
    }
  }

  // ---- the longest path, one only ----

  /** A simple path from a node that every other gives way to: longer, or as long and by the
      edge written first where they part. */
  ghost predicate IsLongest(g: Graph, path: seq<string>, start: string) {
    SimplePath(g, path, start, {}) && forall q :: SimplePath(g, q, start, {}) ==> Beats(g, path, q)
  }

  lemma {:induction false} OneEarliest(g: Graph, p: seq<string>, q: seq<string>)
    requires |p| == |q| > 0 && p[0] == q[0] && Earlier(g, p, q) && Earlier(g, q, p)
    ensures p == q
  {
    hide EdgeRank;
    if |p| > 1 {
      assert p[1] == q[1];
      OneEarliest(g, p[1..], q[1..]);
      assert p == [p[0]] + p[1..] && q == [q[0]] + q[1..];
    }
  }

  lemma OneLongest(g: Graph, p: seq<string>, q: seq<string>, start: string)
    requires IsLongest(g, p, start) && IsLongest(g, q, start)
    ensures p == q
  {
    hide Earlier, Joined;
    assert Beats(g, p, q) && Beats(g, q, p);
    OneEarliest(g, p, q);
  }

  lemma LongestIs(g: Graph, start: string)
    requires g.Valid() && start in g.nodes
    ensures IsLongest(g, LongestFrom(g, start, {}), start)
  {
    LongestBeats(g, start, {});
    hide Beats, SimplePath, LongestFrom;
  }

  /** layoutSpine finds a spine exactly when the flow runs down with no frames and no edge
      back to its own node, and off the longest path from the first node no edge enters
      there hang only branches; and that is the path it takes. */
  lemma SpineIff(ir: FlowIR, i: nat, path: seq<string>)
    requires IrOk(ir) && IsStart(ir, i) && IsLongest(GraphOf(ir), path, ir.nodes[i].id)
    ensures Spine(ir).Some? <==>
              && ir.direction == TopDown && ir.zones == [] && NoLoops(GraphOf(ir))
              && BranchesOnly(GraphOf(ir), path)
    ensures Spine(ir).Some? ==> Spine(ir).value.path == path && path[0] == ir.nodes[i].id
  {
    hide ShapeOf, BranchesOnly, Unentered, IsLongest;
    var g, start := GraphOf(ir), ir.nodes[i].id;
    StartIs(ir, i);
    assert start in g.nodes;
    LongestIs(g, start);
    OneLongest(g, LongestFrom(g, start, {}), path, start);
    PathFrom(g, path, start);
    if NoLoops(g) {
      ShapeIff(g, path);
    }
  }

  lemma PathFrom(g: Graph, path: seq<string>, start: string)
    requires g.Valid() && start in g.nodes && IsLongest(g, path, start)
    ensures PathOk(g, path) && path != [] && path[0] == start
  {
    hide Beats, Joined;
    SimplePathVisits(g, path, start, {});
    PathKnown(g, path, start, {});
  }

  /** There is always such a node and such a path. */
  lemma StartFound(ir: FlowIR) returns (i: nat, path: seq<string>)
    requires IrOk(ir)
    ensures IsStart(ir, i) && IsLongest(GraphOf(ir), path, ir.nodes[i].id)
  {
    hide Unentered, IsLongest;
    if k: nat :| k < |ir.nodes| && Unentered(ir, k) {
      i := 0;
      while !Unentered(ir, i)
        invariant i <= k && forall j: nat :: j < i ==> !Unentered(ir, j)
        decreases k - i
      {
        i := i + 1;
      }
    } else {
      i := 0;
    }
    assert ir.nodes[i].id in GraphOf(ir).nodes;
    LongestIs(GraphOf(ir), ir.nodes[i].id);
    path := LongestFrom(GraphOf(ir), ir.nodes[i].id, {});
  }

  // ---- the step down, of several edges ----

  /** Every step taken is the first edge written to the next node; from the k-th node, none of
      the first n edges leads on where no step is taken yet. */
  ghost predicate FirstSteps(g: Graph, path: seq<string>, sh: SpineShape.Shape, k: nat, n: nat) {
    && (forall j: nat :: j < |path| && path[j] in sh.next ==> IsFirstStep(g, path, j, sh.next[path[j]]))
    && (forall j: nat :: k < j < |path| ==> path[j] !in sh.next)
    && (k + 1 < |path| && path[k] !in sh.next ==> EdgeRank(g, path[k], path[k + 1]) >= n)
    && (n == 0 && k < |path| ==> path[k] !in sh.next)
  }

  /** The first edge written from the j-th node of the path to the next. */
  predicate IsFirstStep(g: Graph, path: seq<string>, j: nat, i: nat) {
    && j + 1 < |path| && i < |g.edges| && g.edges[i].from == path[j] && g.edges[i].to == path[j + 1]
    && forall e :: 0 <= e < i ==> !(g.edges[e].from == path[j] && g.edges[e].to == path[j + 1])
  }

  lemma RankIsFirst(g: Graph, path: seq<string>, j: nat, n: nat)
    requires j + 1 < |path| && n < |OutOf(g.edges, path[j])| && Next(g, path[j], n) == path[j + 1]
    requires EdgeRank(g, path[j], path[j + 1]) >= n
    ensures IsFirstStep(g, path, j, OutOf(g.edges, path[j])[n])
  {
    hide OutOf;
    var out := OutOf(g.edges, path[j]);
    assert out[n] in out;
    forall e | 0 <= e < out[n] && g.edges[e].from == path[j] ensures g.edges[e].to != path[j + 1] {
      assert e in out;
      var l :| 0 <= l < |out| && out[l] == e;
      assert Next(g, path[j], l) != path[j + 1];
    }
  }

  lemma ClassifySteps(g: Graph, path: seq<string>, sh: SpineShape.Shape, k: nat, n: nat)
    requires PathOk(g, path) && k < |path| && n < |OutOf(g.edges, path[k])| && Classify(g, path, sh, k, n).Some?
    requires FirstSteps(g, path, sh, k, n)
    ensures FirstSteps(g, path, Classify(g, path, sh, k, n).value, k, n + 1)
  {
    hide OutOf, WalkChain, IsFirstStep, EdgeRank, Next;
    var after := Classify(g, path, sh, k, n).value;
    if k + 1 < |path| && path[k] !in sh.next {
      RankNot(g, path, k, n);
      if Next(g, path[k], n) == path[k + 1] {
        RankIsFirst(g, path, k, n);
      }
    }
    forall j: nat | j < |path| && path[j] in after.next ensures IsFirstStep(g, path, j, after.next[path[j]]) {
      assert j != k ==> path[j] != path[k];
    }
  }

  lemma RankNot(g: Graph, path: seq<string>, k: nat, n: nat)
    requires k + 1 < |path| && n < |OutOf(g.edges, path[k])| && EdgeRank(g, path[k], path[k + 1]) >= n
    ensures Next(g, path[k], n) != path[k + 1] ==> EdgeRank(g, path[k], path[k + 1]) >= n + 1
  {
    hide OutOf;
  }

  lemma {:induction false} StepsAreFirst(g: Graph, path: seq<string>, k: nat, n: nat)
    requires PathOk(g, path) && if k < |path| then n <= |OutOf(g.edges, path[k])| else k == |path| && n == 0
    requires ShapeAfter(g, path, k, n).Some?
    ensures FirstSteps(g, path, ShapeAfter(g, path, k, n).value, k, n)
    decreases k, n
  {
    hide OutOf, Classify, IsFirstStep, EdgeRank;
    if n > 0 {
      StepsAreFirst(g, path, k, n - 1);
      ClassifySteps(g, path, ShapeAfter(g, path, k, n - 1).value, k, n - 1);
    } else if k > 0 {
      StepsAreFirst(g, path, k - 1, |OutOf(g.edges, path[k - 1])|);
    }
  }

  /** Where several edges lead down to the next node, the step is the one written first. */
  lemma StepIsFirst(g: Graph, path: seq<string>, p: nat)
    requires PathOk(g, path) && ShapeOf(g, path).Some? && p + 1 < |path| && Joined(g, path[p], path[p + 1])
    ensures path[p] in ShapeOf(g, path).value.next && IsFirstStep(g, path, p, ShapeOf(g, path).value.next[path[p]])
  {
    hide ShapeAfter, IsFirstStep, Joined;
    EveryStepDrawn(g, path, p);
    StepsAreFirst(g, path, |path|, 0);
  }
}
