// What the nodes of a flow with a spine look like: the widths its boxes share, each box's
// size and each arrow's label (layoutSpine, ui/src/diagramLayout.ts).
module SpineLooks {
  import opened Geometry
  import opened DiagramTheme
  import opened Flow
  import opened FlowLabels
  import opened SpineSizes
  import opened SpineRows
  import opened SpineLayout
  import SpineShape

  function NodeNamed(ir: FlowIR, id: string): Option<FlowNode> {
    if HasNode(ir.nodes, id) then Some(ir.nodes[IndexOf(ir.nodes, id)]) else None
  }

  /** The nodes of some ids, in order, those the flow has. */
  function NodesNamed(ir: FlowIR, ids: seq<string>): seq<FlowNode> {
    if ids == [] then []
    else
      var n := NodeNamed(ir, ids[0]);
      (if n.Some? then [n.value] else []) + NodesNamed(ir, ids[1..])
  }

  function WithoutDecisions(nodes: seq<FlowNode>): seq<FlowNode> {
    if nodes == [] then []
    else (if nodes[0].shape.Decision? then [] else [nodes[0]]) + WithoutDecisions(nodes[1..])
  }

  /** The nodes hung off the path, branch by branch. */
  function SideIds(shape: SpineShape.Shape, path: seq<string>): seq<string> {
    if path == [] then []
    else (if path[0] in shape.chains then shape.chains[path[0]].nodes else []) + SideIds(shape, path[1..])
  }

  function PathWidth(fonts: Fonts, ir: FlowIR, f: Found): (w: int)
    ensures w >= 200
  {
    BoxWidth(fonts, WithoutDecisions(NodesNamed(ir, f.path)), 200, 240)
  }

  function SideWidth(fonts: Fonts, ir: FlowIR, f: Found): (w: int)
    ensures w >= 200
  {
    BoxWidth(fonts, NodesNamed(ir, SideIds(f.shape, f.path)), 200, 280)
  }

  /** A node's box, on the path or off it. */
  function SizeOf(fonts: Fonts, ir: FlowIR, f: Found, id: string): Dim {
    var n := NodeNamed(ir, id);
    if n.None? then Dim([], 20, 20)
    else if id in f.path then ShapedOf(fonts, n.value, false, PathWidth(fonts, ir, f))
    else ShapedOf(fonts, n.value, true, SideWidth(fonts, ir, f))
  }

  predicate IsSingle(ir: FlowIR, id: string) {
    var n := NodeNamed(ir, id);
    n.Some? && TakesOne(n.value)
  }

  function LooksOf(fonts: Fonts, ir: FlowIR, f: Found): Looks {
    Looks((id: string) => SizeOf(fonts, ir, f, id).w as real, (id: string) => SizeOf(fonts, ir, f, id).h as real,
          (id: string) => IsSingle(ir, id), SideWidth(fonts, ir, f) as real,
          (i: nat) => if i < |ir.edges| then LabelOf(fonts, ir.edges[i]) else None)
  }

  /** Every size and label a flow is given is one it can be drawn with. */
  lemma LooksFit(fonts: Fonts, ir: FlowIR, f: Found)
    ensures LooksOk(LooksOf(fonts, ir, f))
  {
    hide BoxWidth, ShapedOf;
    var looks := LooksOf(fonts, ir, f);
    forall id ensures looks.w(id) >= 16.0 && looks.h(id) >= 16.0 && (looks.single(id) || looks.h(id) >= 20.0) {
      var n := NodeNamed(ir, id);
      if n.Some? {
        ShapedSizes(fonts, n.value, false, PathWidth(fonts, ir, f));
        ShapedSizes(fonts, n.value, true, SideWidth(fonts, ir, f));
      }
    }
  }

  /** The boxes, sized node by node. */
  method SizeNodes(fonts: Fonts, ir: FlowIR, f: Found) returns (sizes: map<string, Dim>)
    ensures forall id :: id in sizes <==> HasNode(ir.nodes, id)
    ensures forall id <- sizes :: sizes[id] == SizeOf(fonts, ir, f, id)
  {
    hide BoxWidth, ShapedOf, PathWidth, SideWidth;
    var pathW, sideW := PathWidth(fonts, ir, f), SideWidth(fonts, ir, f);
    sizes := map[];
    for i := 0 to |ir.nodes|
      invariant forall id :: id in sizes <==> HasNode(ir.nodes[..i], id)
      invariant forall id <- sizes :: sizes[id] == SizeOf(fonts, ir, f, id)
    {
      var id := ir.nodes[i].id;
      assert HasNode(ir.nodes, id);
      HasOneMore(ir.nodes, i);
      var n := NodeNamed(ir, id).value;
      var d;
      if id in f.path {
        d := Shaped(fonts, n, false, pathW);
      } else {
        d := Shaped(fonts, n, true, sideW);
      }
      sizes := sizes[id := d];
    }
    assert ir.nodes[..|ir.nodes|] == ir.nodes;
  }

  lemma HasOneMore(nodes: seq<FlowNode>, i: nat)
    requires i < |nodes|
    ensures forall id :: HasNode(nodes[..i + 1], id) <==> HasNode(nodes[..i], id) || id == nodes[i].id
  {
    var more, few := nodes[..i + 1], nodes[..i];
    forall id ensures HasNode(more, id) <==> HasNode(few, id) || id == nodes[i].id {
      if HasNode(more, id) {
        var k :| 0 <= k < |more| && more[k].id == id;
        assert k < i ==> few[k].id == id;
      }
      if HasNode(few, id) {
        var k :| 0 <= k < |few| && few[k].id == id;
        assert more[k].id == id;
      }
      assert more[i].id == nodes[i].id;
    }
  }

  // ---- a long word in a branch ----

  /** A decision part way out a branch, its label one word: when the word is too long for
      the way to the next column, less what a diamond leaves of its width, the box reaches
      past it. */
  lemma LongWordReaches(fonts: Fonts, ir: FlowIR, f: Found, r: nat, k: nat)
    requires Ready(f) && Known(f) && HasMark(PlanOf(LooksOf(fonts, ir, f), f), Hung(r, k))
    requires var chain := f.shape.chains[f.path[r]].nodes;
             f.path[r] in f.shape.chains && k + 1 < |chain| && chain[k] !in f.path
    requires var n := NodeNamed(ir, f.shape.chains[f.path[r]].nodes[k]);
             n.Some? && n.value.shape.Decision? && n.value.text != "" && OneWord(n.value.text)
    requires var n, p := NodeNamed(ir, f.shape.chains[f.path[r]].nodes[k]).value, PlanOf(LooksOf(fonts, ir, f), f);
             && 0.8125 * Pitch(p, k) < TextWidth(fonts.adv, n.text, StyleOf(fonts, n).size, StyleOf(fonts, n).face)
                + 16.0
             && ColumnGap(p.rows, k + 1) < 460.0
    ensures !Keeps(PlanOf(LooksOf(fonts, ir, f), f), r, k)
  {
    hide TextWidth, ShapedOf, BoxWidth, ColumnGap, SpineShape.ShapeOf;
    var looks := LooksOf(fonts, ir, f);
    var p, id := PlanOf(looks, f), f.shape.chains[f.path[r]].nodes[k];
    var n, sideW := NodeNamed(ir, id).value, SideWidth(fonts, ir, f);
    WordDecision(fonts, n, true, sideW);
    assert p.rows[r] == RowAt(looks, f, r);
    assert p.rows[r].chain == LinksOf(looks, f.shape.chains[f.path[r]]);
    assert p.rows[r].chain[k].w == SizeOf(fonts, ir, f, id).w as real;
  }
}
