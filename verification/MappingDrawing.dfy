// The finished drawing of a trigger-to-target mapping, held to the connector rules of
// ui/src/diagramCheck.ts (layoutMapping in ui/src/diagramLayout.ts).
module MappingDrawing {
  import opened Counting
  import opened Geometry
  import opened Flow
  import opened MappingRows
  import opened MappingColumns
  import opened FlowMapping
  import opened MappingArrows
  import opened MappingTriggers
  import opened MappingLayout
  import MappingLanes

  // ---- what is drawn ----

  function BoxAt(x: int, w: int, s: Slab): Rect {
    Rect(x as real, s.y as real, w as real, s.h as real)
  }

  /** A node of the drawing: a trigger or a target, by its place in its column. */
  datatype Mark = Trigger(s: nat) | Target(t: nat)

  predicate HasMark(m: Mapping, k: Mark)
    requires m.Valid()
  {
    if k.Trigger? then k.s < |m.Triggers()| else k.t < |m.Targets()|
  }

  lemma TargetReady(m: Mapping, t: nat)
    requires m.Valid() && t < |m.Targets()|
    ensures HeightsReady(m) && m.Targets()[t] in m.RowsLaid().rowOf && HasNode(m.ir.nodes, m.Targets()[t])
    ensures m.RowsLaid().rowOf[m.Targets()[t]] < |m.RowsLaid().targets|
  {
    hide IsMapping, AllRows, HeightsReady, RowHeights, Mapping.TargetHeight, Mapping.Targets;
    assert m.Targets()[t] in m.Targets();
    TargetRow(m, m.Targets()[t]);
  }

  function TargetSlabs(m: Mapping): (slabs: seq<Slab>)
    requires m.Valid()
    ensures |slabs| == |m.Targets()|
  {
    seq(|m.Targets()|, t requires 0 <= t < |m.Targets()| => SlabOfTarget(m, t))
  }

  function SlabOfTarget(m: Mapping, t: nat): Slab
    requires m.Valid() && t < |m.Targets()|
  {
    TargetReady(m, t);
    TargetSlab(m, m.Targets()[t])
  }

  function MarkSlab(m: Mapping, k: Mark): Slab
    requires m.Valid() && HasMark(m, k)
  {
    if k.Trigger? then TriggerSlabs(m)[k.s] else SlabOfTarget(m, k.t)
  }

  function MarkBox(m: Mapping, k: Mark): Rect
    requires m.Valid() && HasMark(m, k)
  {
    BoxAt(if k.Trigger? then ZONE_SIDE else TargetX(m), m.Width(), MarkSlab(m, k))
  }

  /** The nodes an arrow joins. */
  function From(m: Mapping, i: nat): (k: Mark)
    requires m.Valid() && i < |m.ir.edges|
    ensures HasMark(m, k)
  {
    EdgeEnds(m, i);
    Trigger(Position(m.Triggers(), m.ir.edges[i].from))
  }

  function To(m: Mapping, i: nat): (k: Mark)
    requires m.Valid() && i < |m.ir.edges|
    ensures HasMark(m, k)
  {
    EdgeEnds(m, i);
    Target(Position(m.Targets(), m.ir.edges[i].to))
  }

  const LABEL_ROOM := 16

  /** An arrow's label, above its last stretch. */
  function Label(m: Mapping, i: nat): Option<Rect>
    requires m.Valid() && i < |m.ir.edges|
  {
    if m.ir.edges[i].text == "" then None
    else
      var l := LabelBox(m.fonts, m.ir.edges[i].text);
      Some(BoxAt(TargetX(m) - LABEL_ROOM - l.w, l.w, Slab(Entry(m, i) - LABEL_GAP - l.h, l.h)))
  }

  function Lowest(slabs: seq<Slab>): (y: int)
    requires slabs != []
    ensures forall s <- slabs :: s.Foot() <= y
  {
    if |slabs| == 1 then slabs[0].Foot()
    else
      var y := Lowest(slabs[1..]);
      assert forall s <- slabs :: s == slabs[0] || s in slabs[1..];
      MaxI(slabs[0].Foot(), y)
  }

  const ZONE_BOTTOM := 20

  lemma BothColumns(m: Mapping)
    requires m.Valid()
    ensures m.Triggers() != [] && m.Targets() != []
  {
    EdgeEnds(m, 0);
  }

  function FrameHeight(m: Mapping): int
    requires m.Valid()
  {
    BothColumns(m);
    MaxI(Lowest(TriggerSlabs(m)), Lowest(TargetSlabs(m))) + ZONE_BOTTOM
  }

  /** The frame around the triggers, or around the targets. */
  function Frame(m: Mapping, second: bool): Rect
    requires m.Valid()
  {
    if second then
      var w := MaxI(m.Width() + 2 * ZONE_SIDE, TitleRoom(m.fonts.adv, m.ir.zones[1].title));
      BoxAt(TargetX(m) - ZONE_SIDE, w, Slab(0, FrameHeight(m)))
    else BoxAt(0, FrameWidth(m), Slab(0, FrameHeight(m)))
  }

  // ---- the layout as it runs ----

  /** Boxes down both columns in the order written, then the arrows, each with its label,
      and the two frames. */
  datatype Drawing = Drawing(triggers: seq<Rect>, targets: seq<Rect>, routes: seq<seq<Point>>,
                             texts: seq<Option<Rect>>, first: Rect, second: Rect)

  ghost predicate Draws(m: Mapping, d: Drawing)
    requires m.Valid()
  {
    && |d.triggers| == |m.Triggers()| && (forall s :: 0 <= s < |d.triggers| ==> d.triggers[s] == MarkBox(m, Trigger(s)))
    && |d.targets| == |m.Targets()| && (forall t :: 0 <= t < |d.targets| ==> d.targets[t] == MarkBox(m, Target(t)))
    && |d.routes| == |m.ir.edges| && (forall i :: 0 <= i < |d.routes| ==> d.routes[i] == Route(m, i))
    && |d.texts| == |m.ir.edges| && (forall i :: 0 <= i < |d.texts| ==> d.texts[i] == Label(m, i))
    && d.first == Frame(m, false) && d.second == Frame(m, true)
  }

  /** Each target level with the middle of its row. */
  method LevelTargets(m: Mapping, rowOf: map<string, nat>, hs: seq<int>, tops: seq<int>) returns (slabs: seq<Slab>)
    requires m.Valid() && HeightsReady(m) && rowOf == m.RowsLaid().rowOf && hs == RowHeights(m)
    requires |tops| == |hs| && forall k :: 0 <= k < |hs| ==> tops[k] == RowTop(hs, m.Gap(), k)
    ensures slabs == TargetSlabs(m)
  {
    hide IsMapping, AllRows, HeightsReady, RowHeights, RowTop, Mapping.TargetHeight, Mapping.Targets, Mapping.RowsLaid;
    slabs := [];
    for t := 0 to |m.Targets()|
      invariant |slabs| == t && forall k :: 0 <= k < t ==> slabs[k] == SlabOfTarget(m, k)
    {
      TargetReady(m, t);
      var r, h := rowOf[m.Targets()[t]], m.TargetHeight(m.Targets()[t]);
      slabs := slabs + [Slab(tops[r] + (hs[r] - h) / 2, h)];
    }
  }

  method PlaceLabels(m: Mapping) returns (texts: seq<Option<Rect>>)
    requires m.Valid()
    ensures |texts| == |m.ir.edges| && forall i :: 0 <= i < |texts| ==> texts[i] == Label(m, i)
  {
    hide IsMapping, Label;
    texts := [];
    for i := 0 to |m.ir.edges|
      invariant |texts| == i && forall j :: 0 <= j < i ==> texts[j] == Label(m, j)
    {
      texts := texts + [Label(m, i)];
    }
  }

  /** The rows, raised where a trigger alone needs it, one under another. */
  method LayHeights(m: Mapping)
    returns (rowOf: map<string, nat>, spans: seq<(nat, nat)>, hs: seq<int>, tops: seq<int>)
    requires m.Valid()
    ensures HeightsReady(m) && rowOf == m.RowsLaid().rowOf && spans == FlowMapping.Spans(m) && hs == RowHeights(m)
    ensures |tops| == |hs| && forall k :: 0 <= k < |hs| ==> tops[k] == RowTop(hs, m.Gap(), k)
  {
    hide IsMapping, AllRows, Span, RowTop, Raised, BaseHeights, TriggerHeights, Mapping.Gap;
    IsReady(m);
    var rows;
    rows, rowOf, spans := LayRows(m.ir.edges, m.Triggers(), m.Targets());
    assert spans == FlowMapping.Spans(m);
    hs := RaiseRows(BaseHeights(m), spans, TriggerHeights(m));
    tops := MappingColumns.StackRows(hs, m.Gap());
  }

  method LayoutMapping(m: Mapping) returns (d: Drawing)
    requires m.Valid()
    ensures Draws(m, d)
  {
    hide IsMapping, HeightsReady, RowHeights, RowTop, Exit, Route, Label, Frame, TriggerSlabs, TargetSlabs;
    hide TargetX, MarkBox;
    hide FlowMapping.Spans, Placers, Mapping.RowsLaid, Mapping.Gap, Mapping.Width, Mapping.Triggers, Mapping.Targets;
    var rowOf, spans, hs, tops := LayHeights(m);
    var targets := LevelTargets(m, rowOf, hs, tops);
    var placer := FindPlacers(m);
    var triggers := LayTriggers(m, spans, hs);
    var ys := TakeExits(m, placer, triggers);
    var routes := BendRoutes(m, ys);
    var texts := PlaceLabels(m);
    d := Drawing(Boxes(ZONE_SIDE, m.Width(), triggers), Boxes(TargetX(m), m.Width(), targets), routes, texts,
                 Frame(m, false), Frame(m, true));
    SlabsAreBoxes(m);
  }

  function Boxes(x: int, w: int, slabs: seq<Slab>): seq<Rect> {
    seq(|slabs|, k requires 0 <= k < |slabs| => BoxAt(x, w, slabs[k]))
  }

  lemma SlabsAreBoxes(m: Mapping)
    requires m.Valid()
    ensures forall s :: 0 <= s < |m.Triggers()| ==>
              MarkBox(m, Trigger(s)) == BoxAt(ZONE_SIDE, m.Width(), TriggerSlabs(m)[s])
    ensures forall t :: 0 <= t < |m.Targets()| ==>
              MarkBox(m, Target(t)) == BoxAt(TargetX(m), m.Width(), TargetSlabs(m)[t])
  {
    hide IsMapping, TriggerSlabs, SlabOfTarget, TargetX, BoxAt, Mapping.Width;
  }

  method LayTriggers(m: Mapping, spans: seq<(nat, nat)>, hs: seq<int>) returns (slabs: seq<Slab>)
    requires m.Valid() && HeightsReady(m) && spans == FlowMapping.Spans(m) && hs == RowHeights(m)
    ensures slabs == TriggerSlabs(m)
  {
    hide IsMapping, Slabs, RowHeights, BaseHeights, Levels, Entry, AllRows, Span;
    TriggersReady(m);
    slabs := StackTriggers(spans, TriggerHeights(m), Levels(m), hs, m.Gap());
  }

  /** Lanes assigned from the top, then each arrow drawn in its own. */
  method BendRoutes(m: Mapping, ys: map<nat, int>) returns (routes: seq<seq<Point>>)
    requires m.Valid() && (forall i :: 0 <= i < |m.ir.edges| ==> i in ys && ys[i] == Exit(m, i))
    ensures |routes| == |m.ir.edges| && forall i :: 0 <= i < |routes| ==> routes[i] == Route(m, i)
  {
    hide IsMapping, Entry, Exit, TurnOrder, MappingLanes.Lanes, Route;
    var order := TurnOrder(m);
    TurnOrderHolds(m);
    var lanes, laneOf := MappingLanes.AssignLanes(TurnsOf(m, order));
    assert forall i: nat :: LaneIndex(m, i) == if i in order then laneOf[Position(order, i)] else 0;
    routes := DrawRoutes(m, ys, order, laneOf);
  }
}
