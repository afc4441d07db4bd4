// Mappings of plain nodes and bare arrows, and what their rows, order and exits are: what
// the two mappings drawn wrongly are worked out with.
module MappingPlain {
  import opened Counting
  import opened Geometry
  import opened Flow
  import opened FlowLabels
  import opened MappingRows
  import opened MappingColumns
  import opened MappingExits
  import opened FlowMapping
  import opened MappingArrows
  import opened MappingLayout

  function Column(ids: seq<string>, zone: string): (nodes: seq<FlowNode>)
    ensures |nodes| == |ids|
  {
    seq(|ids|, k requires 0 <= k < |ids| => FlowNode(ids[k], ids[k], Flow.Step, Some(zone)))
  }

  function Arrow(from: string, to: string): FlowEdge {
    FlowEdge(from, to, "", false, HeadAtEnd)
  }

  /** Triggers and targets labelled by their ids, and bare arrows from one to the other. */
  function Made(fonts: Fonts, triggers: seq<string>, targets: seq<string>, edges: seq<FlowEdge>): Mapping {
    Mapping(fonts,
            FlowIR(LeftRight, Column(triggers, "l") + Column(targets, "r"), edges, [Zone("l", "l"), Zone("r", "r")]))
  }

  predicate Plain(triggers: seq<string>, targets: seq<string>, edges: seq<FlowEdge>) {
    && edges != [] && Unlike(triggers + targets)
    && (forall id <- triggers + targets :: OneWord(id))
    && (forall e <- edges :: e.from in triggers && e.to in targets && e.text == "")
  }

  predicate Unlike(ids: seq<string>) {
    forall i, j :: 0 <= i < j < |ids| ==> ids[i] != ids[j]
  }

  lemma {:induction false} ColumnInZone(ids: seq<string>, zone: string, other: string)
    ensures InZone(Column(ids, zone), other) == if zone == other then ids else []
  {
    if ids != [] {
      var last := |ids| - 1;
      ColumnInZone(ids[..last], zone, other);
      assert Column(ids, zone)[..last] == Column(ids[..last], zone);
      assert ids == ids[..last] + [ids[last]];
    }
  }

  lemma {:induction false} InZoneJoins(a: seq<FlowNode>, b: seq<FlowNode>, zone: string)
    ensures InZone(a + b, zone) == InZone(a, zone) + InZone(b, zone)
  {
    if b == [] {
      assert a + b == a;
    } else {
      var last := |b| - 1;
      assert (a + b)[..|a + b| - 1] == a + b[..last];
      InZoneJoins(a, b[..last], zone);
    }
  }

  lemma MadeNodes(fonts: Fonts, triggers: seq<string>, targets: seq<string>, edges: seq<FlowEdge>)
    requires Plain(triggers, targets, edges)
    ensures var nodes, ids := Made(fonts, triggers, targets, edges).ir.nodes, triggers + targets;
            && |nodes| == |ids| && DistinctIds(nodes)
            && forall k :: 0 <= k < |ids| ==>
                 && nodes[k] == FlowNode(ids[k], ids[k], Flow.Step, Some(if k < |triggers| then "l" else "r"))
                 && HasNode(nodes, ids[k]) && IndexOf(nodes, ids[k]) == k
  {
    var nodes, ids := Made(fonts, triggers, targets, edges).ir.nodes, triggers + targets;
    forall k | 0 <= k < |ids| ensures nodes[k].id == ids[k] {
    }
    assert DistinctIds(nodes) by {
      forall i, j | 0 <= i < j < |nodes| ensures nodes[i].id != nodes[j].id {
        assert nodes[i].id == ids[i] && nodes[j].id == ids[j];
      }
    }
    forall k | 0 <= k < |ids| ensures HasNode(nodes, ids[k]) && IndexOf(nodes, ids[k]) == k {
      IndexUnique(nodes, k);
    }
  }

  lemma MadeValid(fonts: Fonts, triggers: seq<string>, targets: seq<string>, edges: seq<FlowEdge>)
    requires Plain(triggers, targets, edges)
    ensures var m := Made(fonts, triggers, targets, edges);
            m.Valid() && m.Triggers() == triggers && m.Targets() == targets
  {
    hide IndexOf, InZone, Column, Unlike;
    MadeNodes(fonts, triggers, targets, edges);
    MadeEdges(fonts, triggers, targets, edges);
    InZoneJoins(Column(triggers, "l"), Column(targets, "r"), "l");
    InZoneJoins(Column(triggers, "l"), Column(targets, "r"), "r");
    ColumnInZone(triggers, "l", "l");
    ColumnInZone(targets, "r", "l");
    ColumnInZone(triggers, "l", "r");
    ColumnInZone(targets, "r", "r");
    assert triggers + [] == triggers && [] + targets == targets;
    NodeZones(fonts, triggers, targets, edges);
  }

  lemma NodeZones(fonts: Fonts, triggers: seq<string>, targets: seq<string>, edges: seq<FlowEdge>)
    ensures forall n <- Made(fonts, triggers, targets, edges).ir.nodes :: n.zone == Some("l") || n.zone == Some("r")
  {
  }

  lemma MadeEdges(fonts: Fonts, triggers: seq<string>, targets: seq<string>, edges: seq<FlowEdge>)
    requires Plain(triggers, targets, edges)
    ensures var nodes := Made(fonts, triggers, targets, edges).ir.nodes;
            forall e <- edges ::
              && HasNode(nodes, e.from) && nodes[IndexOf(nodes, e.from)].zone == Some("l")
              && HasNode(nodes, e.to) && nodes[IndexOf(nodes, e.to)].zone == Some("r")
  {
    hide Column, Unlike, IndexOf;
    var nodes, ids := Made(fonts, triggers, targets, edges).ir.nodes, triggers + targets;
    MadeNodes(fonts, triggers, targets, edges);
    hide HasNode;
    forall e | e in edges
      ensures HasNode(nodes, e.from) && nodes[IndexOf(nodes, e.from)].zone == Some("l")
      ensures HasNode(nodes, e.to) && nodes[IndexOf(nodes, e.to)].zone == Some("r")
    {
      var i, j := Position(triggers, e.from), |triggers| + Position(targets, e.to);
      assert ids[i] == e.from && ids[j] == e.to;
    }
  }

  lemma {:induction false} BareLabels(fonts: Fonts, edges: seq<FlowEdge>)
    requires forall e <- edges :: e.text == ""
    ensures TallestLabel(fonts, edges) == LABEL_LINE && WidestArrowLabel(fonts, edges) == 0
  {
    if edges != [] {
      assert edges[0] in edges;
      BareLabels(fonts, edges[1..]);
    }
  }

  /** Bare arrows and one-line labels: what is as tall as what. */
  lemma MadeSizes(fonts: Fonts, triggers: seq<string>, targets: seq<string>, edges: seq<FlowEdge>)
    requires Plain(triggers, targets, edges)
    ensures var m := Made(fonts, triggers, targets, edges);
            && m.Gap() == 23 && (forall id :: m.Spacing(id) == 16)
            && (forall t <- targets ::
                HasNode(m.ir.nodes, t) && m.TargetHeight(t) == MaxI(40, Slotted(|Into(edges, t)|, 16)))
            && (forall s <- triggers ::
                HasNode(m.ir.nodes, s) && m.TriggerHeight(s) == MaxI(40, ExitRoom(|OutOf(edges, s)|)))
  {
    hide Slotted, ExitRoom;
    var m := Made(fonts, triggers, targets, edges);
    var ids := triggers + targets;
    BareLabels(fonts, edges);
    MadeNodes(fonts, triggers, targets, edges);
    assert forall id :: !m.Labelled(id);
    forall id | id in ids ensures HasNode(m.ir.nodes, id) && m.NodeHeight(id) == 40 {
      var k := Position(ids, id);
      var style := StyleOf(fonts, m.ir.nodes[k]);
      WordStays(fonts.adv, id, m.Width() as real - 2.0 * PAD_X, style.size, style.face);
    }
  }

  lemma ReachesIs(edges: seq<FlowEdge>, id: string, out: seq<nat>, ids: seq<string>)
    requires forall j, k :: 0 <= j < k < |out| ==> out[j] < out[k]
    requires forall i: nat :: i in out <==> i < |edges| && edges[i].from == id
    requires |ids| == |out| && forall k :: 0 <= k < |out| ==> out[k] < |edges| && ids[k] == edges[out[k]].to
    ensures OutOf(edges, id) == out && Reaches(edges, id) == ids
  {
    OutIs(edges, id, out);
  }

  lemma AddMore(rs: Rows, ids: seq<string>, t: string)
    ensures AddTargets(rs, ids + [t]) == AddTarget(AddTargets(rs, ids), t)
  {
    assert (ids + [t])[..|ids|] == ids;
  }

  lemma {:induction false} AddJoins(rs: Rows, a: seq<string>, b: seq<string>)
    ensures AddTargets(rs, a + b) == AddTargets(AddTargets(rs, a), b)
  {
    if b == [] {
      assert a + b == a;
    } else {
      var last := |b| - 1;
      assert (a + b)[..|a + b| - 1] == a + b[..last];
      AddJoins(rs, a, b[..last]);
    }
  }

  /** Targets already placed change nothing. */
  lemma {:induction false} AddKnown(rs: Rows, ids: seq<string>)
    requires forall t <- ids :: t in rs.rowOf
    ensures AddTargets(rs, ids) == rs
  {
    if ids != [] {
      AddKnown(rs, ids[..|ids| - 1]);
      assert ids[|ids| - 1] in ids;
    }
  }

  lemma TriggerNext(edges: seq<FlowEdge>, triggers: seq<string>, i: nat)
    requires i < |triggers|
    ensures TriggerRows(edges, triggers[..i + 1]) == OpenRows(edges, TriggerRows(edges, triggers[..i]), triggers[i])
  {
    assert triggers[..i + 1][..i] == triggers[..i];
  }

  lemma OwnSpanIs(m: Mapping, i: nat, s: nat)
    requires m.Valid() && i < |m.ir.edges| && s < |m.Triggers()| && m.ir.edges[i].from == m.Triggers()[s]
    ensures m.ir.edges[i].to in m.RowsLaid().rowOf
    ensures InOwnSpan(m, i) <==> m.SpanOf(s).0 <= m.RowsLaid().rowOf[m.ir.edges[i].to] <= m.SpanOf(s).1
  {
    hide IsMapping, AllRows, Span;
    EdgeEnds(m, i);
    RowsHoldTargets(m);
    TriggersDistinct(m, s);
  }

  lemma OnesAre(m: Mapping, straight: seq<nat>, bent: seq<nat>)
    requires m.Valid()
    requires forall j, k :: 0 <= j < k < |straight| ==> straight[j] < straight[k]
    requires forall j, k :: 0 <= j < k < |bent| ==> bent[j] < bent[k]
    requires forall i: nat :: i in straight <==> i < |m.ir.edges| && Straight(m, i)
    requires forall i: nat :: i in bent <==> i < |m.ir.edges| && !Straight(m, i)
    ensures StraightOnes(m) == straight && BentOnes(m) == bent
  {
    hide IsMapping, Straight;
    AscendingSame(StraightOnes(m), straight);
    AscendingSame(BentOnes(m), bent);
  }

  /** What leaving adds to the heights one trigger's arrows have left at. */
  lemma ExitsMore(m: Mapping, taken: seq<nat>, i: nat, s: string, exits: seq<int>, y: int)
    requires m.Valid() && Arrows(m, taken) && i < |m.ir.edges| && m.ir.edges[i].from == s && Exits(m, taken, s) == exits
    requires y == ExitAfter(m, taken, i)
    ensures Arrows(m, taken + [i]) && Exits(m, taken + [i], s) == exits + [y]
  {
    hide ExitAfter;
    assert (taken + [i])[..|taken|] == taken;
  }

  lemma {:induction false} NoExitsYet(m: Mapping, taken: seq<nat>, s: string)
    requires m.Valid() && Arrows(m, taken) && forall k :: 0 <= k < |taken| ==> m.ir.edges[taken[k]].from != s
    ensures Exits(m, taken, s) == []
  {
    if taken != [] {
      NoExitsYet(m, taken[..|taken| - 1], s);
    }
  }
}
