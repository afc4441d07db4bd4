// A mapping to lay out, triggers to targets: which flows are one, and what heights its two
// columns are stacked with (isMapping and layoutMapping, ui/src/diagramLayout.ts).
module FlowMapping {
  import opened Geometry
  import opened Flow
  import opened MappingRows
  import opened MappingColumns
  import opened MappingExits

  /** isMapping(): drawn left to right, each node in one of exactly two subgraphs, and each
      edge leading out of the first into the second. */
  predicate IsMapping(ir: FlowIR): (b: bool)
    ensures b ==> |ir.zones| == 2
  {
    && ir.direction == LeftRight && |ir.zones| == 2 && ir.edges != []
    && (forall n <- ir.nodes :: n.zone == Some(ir.zones[0].id) || n.zone == Some(ir.zones[1].id))
    && (forall e <- ir.edges ::
          && HasNode(ir.nodes, e.from) && ir.nodes[IndexOf(ir.nodes, e.from)].zone == Some(ir.zones[0].id)
          && HasNode(ir.nodes, e.to) && ir.nodes[IndexOf(ir.nodes, e.to)].zone == Some(ir.zones[1].id))
  }

  /** A mapping as the reader hands it over: ids told apart. */
  predicate Readable(ir: FlowIR) {
    IsMapping(ir) && DistinctIds(ir.nodes) && ir.zones[0].id != ir.zones[1].id
  }

  function InZone(nodes: seq<FlowNode>, zone: string): (ids: seq<string>)
    ensures forall id <- ids :: HasNode(nodes, id) && nodes[IndexOf(nodes, id)].id == id
  {
    if nodes == [] then []
    else
      var last := |nodes| - 1;
      var init := InZone(nodes[..last], zone);
      assert forall id <- init :: HasNode(nodes[..last], id) ==> HasNode(nodes, id) by {
        forall id | id in init && HasNode(nodes[..last], id) ensures HasNode(nodes, id) {
          var k :| 0 <= k < last && nodes[..last][k].id == id;
          assert nodes[k].id == id;
        }
      }
      init + if nodes[last].zone == Some(zone) then [nodes[last].id] else []
  }

  lemma {:induction false} InZoneHolds(nodes: seq<FlowNode>, zone: string)
    requires DistinctIds(nodes)
    ensures forall i :: 0 <= i < |nodes| && nodes[i].zone == Some(zone) ==> nodes[i].id in InZone(nodes, zone)
    ensures forall id <- InZone(nodes, zone) ::
              exists i :: 0 <= i < |nodes| && nodes[i].id == id && nodes[i].zone == Some(zone)
    ensures forall i, j :: 0 <= i < j < |InZone(nodes, zone)| ==> InZone(nodes, zone)[i] != InZone(nodes, zone)[j]
  {
    if nodes != [] {
      var last := |nodes| - 1;
      InZoneHolds(nodes[..last], zone);
      var init := InZone(nodes[..last], zone);
      forall id | id in InZone(nodes, zone)
        ensures exists i :: 0 <= i < |nodes| && nodes[i].id == id && nodes[i].zone == Some(zone)
      {
        if id in init {
          var i :| 0 <= i < last && nodes[..last][i].id == id && nodes[..last][i].zone == Some(zone);
          assert nodes[i].id == id;
        } else {
          assert nodes[last].id == id;
        }
      }
      forall i | 0 <= i < |init| ensures init[i] != nodes[last].id {
        assert init[i] in init;
        var k :| 0 <= k < last && nodes[..last][k].id == init[i] && nodes[..last][k].zone == Some(zone);
        assert nodes[k].id == init[i];
      }
    }
  }

  function TallestLabel(fonts: Fonts, edges: seq<FlowEdge>): (h: int)
    ensures h >= LABEL_LINE
  {
    if edges == [] then LABEL_LINE else MaxI(LabelHeight(fonts, edges[0]), TallestLabel(fonts, edges[1..]))
  }

  datatype Mapping = Mapping(fonts: Fonts, ir: FlowIR) {

    predicate Valid() {
      Readable(ir)
    }

    function Triggers(): seq<string>
      requires |ir.zones| == 2
    {
      InZone(ir.nodes, ir.zones[0].id)
    }

    function Targets(): seq<string>
      requires |ir.zones| == 2
    {
      InZone(ir.nodes, ir.zones[1].id)
    }

    function Width(): (w: int)
      ensures w >= 160
    {
      BoxWidth(fonts, ir.nodes, 160, 240)
    }

    /** The room a labelled entry needs above it. */
    function Room(): (r: int)
      ensures r == TallestLabel(fonts, ir.edges) + 24
    {
      TallestLabel(fonts, ir.edges) + 2 * LABEL_GAP + 8
    }

    function Gap(): (g: int)
      ensures g >= ROW_GAP && g >= TallestLabel(fonts, ir.edges) + LABEL_GAP
    {
      MaxI(ROW_GAP, TallestLabel(fonts, ir.edges) + LABEL_GAP)
    }

    predicate Labelled(id: string) {
      exists i :: 0 <= i < |ir.edges| && ir.edges[i].to == id && ir.edges[i].text != ""
    }

    function Spacing(id: string): (g: int)
      ensures g >= APART
      ensures Labelled(id) ==> g == Room()
    {
      if Labelled(id) then Room() else APART
    }

    /** A node's own height at the shared width. */
    function NodeHeight(id: string): (h: int)
      requires HasNode(ir.nodes, id)
      ensures h >= 40 && h % 4 == 0
    {
      BoxHeight(|NodeLines(fonts, ir.nodes[IndexOf(ir.nodes, id)], Width())|, false)
    }

    function TargetHeight(id: string): (h: int)
      requires HasNode(ir.nodes, id)
      ensures h >= 40 && h % 4 == 0 && h >= Slotted(|Into(ir.edges, id)|, Spacing(id))
    {
      MaxI(NodeHeight(id), Slotted(|Into(ir.edges, id)|, Spacing(id)))
    }

    function TriggerHeight(id: string): (h: int)
      requires HasNode(ir.nodes, id)
      ensures h >= 40 && h % 4 == 0 && h >= ExitRoom(|OutOf(ir.edges, id)|)
    {
      MaxI(NodeHeight(id), ExitRoom(|OutOf(ir.edges, id)|))
    }

    function RowsLaid(): Rows
      requires |ir.zones| == 2
    {
      AllRows(ir.edges, Triggers(), Targets())
    }

    function SpanOf(i: nat): (nat, nat)
      requires |ir.zones| == 2 && i < |Triggers()|
    {
      Span(ir.edges, Triggers(), i)
    }
  }

  // ---- the rows' heights ----

  lemma EdgeEnds(m: Mapping, i: nat)
    requires m.Valid() && i < |m.ir.edges|
    ensures m.ir.edges[i].from in m.Triggers() && m.ir.edges[i].to in m.Targets()
  {
    var e := m.ir.edges[i];
    assert e in m.ir.edges;
    InZoneHolds(m.ir.nodes, m.ir.zones[0].id);
    InZoneHolds(m.ir.nodes, m.ir.zones[1].id);
    var a, b := IndexOf(m.ir.nodes, e.from), IndexOf(m.ir.nodes, e.to);
    assert m.ir.nodes[a].id in m.Triggers() && m.ir.nodes[b].id in m.Targets();
  }

  lemma ReachedAreTargets(m: Mapping, trigger: string)
    requires m.Valid()
    ensures forall t <- Reaches(m.ir.edges, trigger) :: t in m.Targets()
  {
    var out := OutOf(m.ir.edges, trigger);
    forall t | t in Reaches(m.ir.edges, trigger) ensures t in m.Targets() {
      var k :| 0 <= k < |out| && t == m.ir.edges[out[k]].to;
      assert out[k] in out;
      EdgeEnds(m, out[k]);
    }
  }

  /** Rows hold targets, and every target has its row. */
  lemma RowsHoldTargets(m: Mapping)
    requires m.Valid()
    ensures RowsOk(m.RowsLaid())
    ensures forall t <- m.Targets() :: t in m.RowsLaid().rowOf
    ensures forall k :: 0 <= k < |m.RowsLaid().targets| && m.RowsLaid().targets[k].Some? ==>
              m.RowsLaid().targets[k].value in m.Targets()
  {
    AllRowsOk(m.ir.edges, m.Triggers(), m.Targets());
    var rs, own := m.RowsLaid(), TriggerRows(m.ir.edges, m.Triggers());
    AddTargetsOkFor(m, own);
    assert m.Triggers()[..|m.Triggers()|] == m.Triggers();
    forall k | 0 <= k < |rs.targets| && rs.targets[k].Some? ensures rs.targets[k].value in m.Targets() {
      if k < |own.targets| {
        var i := RowHasTrigger(m.ir.edges, m.Triggers(), |m.Triggers()|, k);
        SpanHolds(m.ir.edges, m.Triggers(), m.Targets(), i);
        ReachedAreTargets(m, m.Triggers()[i]);
      }
    }
  }

  lemma AddTargetsOkFor(m: Mapping, own: Rows)
    requires m.Valid() && own == TriggerRows(m.ir.edges, m.Triggers())
    ensures forall k :: |own.targets| <= k < |m.RowsLaid().targets| ==>
              m.RowsLaid().targets[k].Some? && m.RowsLaid().targets[k].value in m.Targets()
  {
    TriggerRowsOk(m.ir.edges, m.Triggers());
    AddTargetsOk(own, m.Targets());
  }

  predicate HeightsReady(m: Mapping) {
    && |m.ir.zones| == 2
    && (forall t <- m.Targets() :: HasNode(m.ir.nodes, t)) && (forall s <- m.Triggers() :: HasNode(m.ir.nodes, s))
    && (forall k :: 0 <= k < |m.RowsLaid().targets| && m.RowsLaid().targets[k].Some? ==>
        m.RowsLaid().targets[k].value in m.Targets())
    && SpansOk(Spans(m), |m.RowsLaid().targets|)
  }

  function Spans(m: Mapping): (spans: seq<(nat, nat)>)
    requires |m.ir.zones| == 2
    ensures |spans| == |m.Triggers()|
  {
    seq(|m.Triggers()|, i requires 0 <= i < |m.Triggers()| => m.SpanOf(i))
  }

  lemma IsReady(m: Mapping)
    requires m.Valid()
    ensures HeightsReady(m)
  {
    RowsHoldTargets(m);
    forall i | 0 <= i < |Spans(m)| ensures Spans(m)[i].0 <= Spans(m)[i].1 < |m.RowsLaid().targets| {
      SpanHolds(m.ir.edges, m.Triggers(), m.Targets(), i);
    }
    forall i, j | 0 <= i < j < |Spans(m)| ensures Spans(m)[i].1 < Spans(m)[j].0 {
      SpansInOrder(m.ir.edges, m.Triggers(), i, j);
    }
  }

  function BaseHeights(m: Mapping): (hs: seq<int>)
    requires HeightsReady(m)
    ensures |hs| == |m.RowsLaid().targets| && Heights(hs)
  {
    var rows := m.RowsLaid().targets;
    seq(|rows|, k requires 0 <= k < |rows| => if rows[k].Some? then m.TargetHeight(rows[k].value) else 0)
  }

  function TriggerHeights(m: Mapping): (ths: seq<int>)
    requires HeightsReady(m)
    ensures |ths| == |m.Triggers()| && forall i :: 0 <= i < |ths| ==> ths[i] >= 40 && ths[i] % 4 == 0
  {
    seq(|m.Triggers()|, i requires 0 <= i < |m.Triggers()| => m.TriggerHeight(m.Triggers()[i]))
  }

  function RowHeights(m: Mapping): (hs: seq<int>)
    requires HeightsReady(m)
    ensures |hs| == |m.RowsLaid().targets|
  {
    Raised(BaseHeights(m), Spans(m), TriggerHeights(m), |Spans(m)|)
  }

  /** A target level with its row, in the middle of the row's height. */
  function TargetSlab(m: Mapping, t: string): Slab
    requires HeightsReady(m) && t in m.RowsLaid().rowOf && m.RowsLaid().rowOf[t] < |m.RowsLaid().targets|
             && HasNode(m.ir.nodes, t)
  {
    var r := m.RowsLaid().rowOf[t];
    var h := m.TargetHeight(t);
    Slab(RowTop(RowHeights(m), m.Gap(), r) + (RowHeights(m)[r] - h) / 2, h)
  }
}
