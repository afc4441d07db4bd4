// What a mapping's drawing says and how tall it says it: each box its node's own label, each
// label its arrow's, rows and slots in the order the flow has them (layoutMapping,
// ui/src/diagramLayout.ts).
module MappingReads {
  import opened Counting
  import opened Geometry
  import opened DiagramTheme
  import opened Flow
  import opened FlowSizes
  import opened MappingRows
  import opened MappingColumns
  import opened FlowMapping
  import opened MappingArrows
  import opened MappingTriggers
  import opened MappingLayout
  import opened MappingDrawing

  // ---- boxes ----

  function IdOf(m: Mapping, k: Mark): string
    requires m.Valid() && HasMark(m, k)
  {
    if k.Trigger? then m.Triggers()[k.s] else m.Targets()[k.t]
  }

  /** The node a box is for. */
  function NodeOf(m: Mapping, k: Mark): (n: FlowNode)
    requires m.Valid() && HasMark(m, k)
    ensures n in m.ir.nodes && n.id == IdOf(m, k)
  {
    assert IdOf(m, k) in InZone(m.ir.nodes, m.ir.zones[if k.Trigger? then 0 else 1].id);
    m.ir.nodes[IndexOf(m.ir.nodes, IdOf(m, k))]
  }

  /** The lines of its label at the width all boxes share. */
  function LabelLines(m: Mapping, k: Mark): seq<string>
    requires m.Valid() && HasMark(m, k)
  {
    SetLines(m.fonts, NodeOf(m, k), MarkBox(m, k).w - 32.0)
  }

  /** All boxes share one width, between 160 and 240 or what the longest word takes. */
  lemma BoxesWide(m: Mapping, k: Mark)
    requires m.Valid() && HasMark(m, k)
    ensures MarkBox(m, k).w == m.Width() as real && SharedBy(m.fonts, m.ir.nodes, 160, 240, m.Width())
  {
    hide IsMapping, MarkSlab, TargetX, SharedBy, BoxWidth;
    SharedWidth(m.fonts, m.ir.nodes, 160, 240);
  }

  /** The least height, in steps of 8, that holds some attach points a spacing apart and a
      margin. */
  predicate HoldsPoints(h: int, count: nat, spacing: int, margin: int) {
    h % 8 == 0 && count * spacing + margin <= h < count * spacing + margin + 8
  }

  lemma LinesAre(m: Mapping, k: Mark)
    requires m.Valid() && HasMark(m, k)
    ensures NodeLines(m.fonts, NodeOf(m, k), m.Width()) == LabelLines(m, k)
    ensures HasNode(m.ir.nodes, IdOf(m, k)) && HoldsLines(m.NodeHeight(IdOf(m, k)), 40, |LabelLines(m, k)|)
  {
    hide IsMapping, NodeLines, SetLines, HoldsLines, BoxHeight, IdOf, MarkBox, Mapping.NodeHeight;
    PlainBox(m.fonts, NodeOf(m, k), m.Width(), false);
    NodeIs(m, k);
    assert MarkBox(m, k).w == m.Width() as real by { BoxWide(m, k); }
    NodeTall(m, IdOf(m, k));
  }

  lemma NodeIs(m: Mapping, k: Mark)
    requires m.Valid() && HasMark(m, k)
    ensures HasNode(m.ir.nodes, IdOf(m, k)) && NodeOf(m, k) == m.ir.nodes[IndexOf(m.ir.nodes, IdOf(m, k))]
  {
    hide IsMapping, IndexOf;
  }

  lemma BoxWide(m: Mapping, k: Mark)
    requires m.Valid() && HasMark(m, k)
    ensures MarkBox(m, k).w == m.Width() as real
  {
    hide IsMapping, MarkSlab, TargetX, Mapping.Width;
  }

  lemma NodeTall(m: Mapping, id: string)
    requires HasNode(m.ir.nodes, id)
    ensures var n := m.ir.nodes[IndexOf(m.ir.nodes, id)];
            HoldsLines(m.NodeHeight(id), 40, |NodeLines(m.fonts, n, m.Width())|)
  {
    hide NodeLines, HoldsLines, BoxHeight, Mapping.Width, SetLines;
    PlainBox(m.fonts, m.ir.nodes[IndexOf(m.ir.nodes, id)], m.Width(), false);
  }

  /** A target is as tall as its label's lines or, entered more than once, as its entries
      need. */
  lemma TargetTall(m: Mapping, t: nat)
    requires m.Valid() && t < |m.Targets()|
    ensures var lines, h, k := |LabelLines(m, Target(t))|, MarkSlab(m, Target(t)).h, |Into(m.ir.edges, m.Targets()[t])|;
            && h >= 40 + 18 * (lines - 1)
            && (HoldsLines(h, 40, lines) || (k >= 2 && HoldsPoints(h, k, m.Spacing(m.Targets()[t]), 16)))
            && (k >= 2 ==> h >= k * m.Spacing(m.Targets()[t]) + 16)
  {
    LinesAre(m, Target(t));
    TargetReady(m, t);
    hide IsMapping, Mapping.NodeHeight, AllRows, HeightsReady, RowHeights, Mapping.Triggers, LabelLines, RowTop;
    hide Mapping.Gap, Mapping.Spacing, Into;
  }

  /** What a target's box needs. */
  function NeedOf(m: Mapping, t: nat): int
    requires m.Valid() && t < |m.Targets()|
  {
    var k := |Into(m.ir.edges, m.Targets()[t])|;
    MaxI(Up4(40 + 18 * (|LabelLines(m, Target(t))| - 1)), if k < 2 then 0 else Up8(k * m.Spacing(m.Targets()[t]) + 16))
  }

  lemma TargetNeeds(m: Mapping, t: nat)
    requires m.Valid() && t < |m.Targets()|
    ensures HasNode(m.ir.nodes, m.Targets()[t]) && m.TargetHeight(m.Targets()[t]) == NeedOf(m, t)
    ensures MarkSlab(m, Target(t)).h == NeedOf(m, t)
  {
    hide IsMapping, Mapping.NodeHeight, AllRows, HeightsReady, Mapping.Triggers, LabelLines, NeedOf;
    hide Mapping.TargetHeight, Mapping.Targets, Mapping.RowsLaid;
    TargetReady(m, t);
    SlabTall(m, t);
    HeightNeeded(m, t);
  }

  lemma SlabTall(m: Mapping, t: nat)
    requires m.Valid() && t < |m.Targets()| && HasNode(m.ir.nodes, m.Targets()[t])
    ensures MarkSlab(m, Target(t)).h == m.TargetHeight(m.Targets()[t])
  {
    hide IsMapping, AllRows, HeightsReady, RowHeights, Mapping.TargetHeight, Mapping.Targets, Mapping.RowsLaid, RowTop;
    hide Mapping.Gap;
  }

  lemma HeightNeeded(m: Mapping, t: nat)
    requires m.Valid() && t < |m.Targets()| && HasNode(m.ir.nodes, m.Targets()[t])
    ensures m.TargetHeight(m.Targets()[t]) == NeedOf(m, t)
  {
    hide IsMapping, Mapping.NodeHeight, LabelLines, Slotted, HoldsLines, Mapping.Targets, Mapping.Spacing, Into;
    hide Up4, Up8;
    LinesAre(m, Target(t));
    LeastHeight(m.NodeHeight(m.Targets()[t]), |LabelLines(m, Target(t))|);
    SlotsNeed(|Into(m.ir.edges, m.Targets()[t])|, m.Spacing(m.Targets()[t]));
  }

  lemma LeastHeight(h: int, lines: nat)
    requires HoldsLines(h, 40, lines)
    ensures h == Up4(40 + 18 * (lines - 1))
  {
  }

  lemma SlotsNeed(k: nat, g: int)
    ensures Slotted(k, g) == if k < 2 then 0 else Up8(k * g + 16)
  {
  }

  /** A trigger of one row is as tall as its label's lines or, left more than once, as its
      exits need. */
  lemma OneRowTall(m: Mapping, s: nat)
    requires m.Valid() && s < |m.Triggers()| && m.SpanOf(s).0 == m.SpanOf(s).1
    ensures var lines, h, k := |LabelLines(m, Trigger(s))|, MarkSlab(m, Trigger(s)).h,
              |OutOf(m.ir.edges, m.Triggers()[s])|;
            && h >= 40 + 18 * (lines - 1)
            && (HoldsLines(h, 40, lines) || (k >= 2 && HoldsPoints(h, k - 1, 32, 20)))
            && (k >= 2 ==> h >= 2 * (10 + 16 * (k - 1)))
  {
    hide IsMapping, Mapping.NodeHeight, AllRows, HeightsReady, RowHeights, LabelLines, RowTop, TriggerSlabs;
    hide Mapping.Gap, OutOf, Level, Span, Mapping.Triggers, Mapping.TriggerHeight, Mapping.SpanOf, HoldsLines;
    hide HoldsPoints;
    LinesAre(m, Trigger(s));
    TriggerPlaced(m, s);
    OwnHeight(m, s);
  }

  lemma OwnHeight(m: Mapping, s: nat)
    requires m.Valid() && s < |m.Triggers()| && HasNode(m.ir.nodes, m.Triggers()[s])
    requires HoldsLines(m.NodeHeight(m.Triggers()[s]), 40, |LabelLines(m, Trigger(s))|)
    ensures var lines, h, k := |LabelLines(m, Trigger(s))|, m.TriggerHeight(m.Triggers()[s]),
              |OutOf(m.ir.edges, m.Triggers()[s])|;
            && h >= 40 + 18 * (lines - 1)
            && (HoldsLines(h, 40, lines) || (k >= 2 && HoldsPoints(h, k - 1, 32, 20)))
            && (k >= 2 ==> h >= 2 * (10 + 16 * (k - 1)))
  {
    hide IsMapping, Mapping.NodeHeight, LabelLines, OutOf, Mapping.Triggers;
  }

  // ---- a trigger over several rows ----

  /** The rows of a trigger of several hold targets of its own. */
  lemma OwnTargets(m: Mapping, s: nat, k: nat)
    requires m.Valid() && s < |m.Triggers()| && m.SpanOf(s).0 < m.SpanOf(s).1 && m.SpanOf(s).0 <= k <= m.SpanOf(s).1
    ensures k < |m.RowsLaid().targets| && m.RowsLaid().targets[k].Some?
            && m.RowsLaid().targets[k].value in m.Targets()
  {
    hide IsMapping, AllRows, Span, Mapping.Triggers, Mapping.Targets;
    SpanHolds(m.ir.edges, m.Triggers(), m.Targets(), s);
    RowsHoldTargets(m);
  }

  /** The target in row k. */
  function TargetIn(m: Mapping, s: nat, k: nat): (t: nat)
    requires m.Valid() && s < |m.Triggers()| && m.SpanOf(s).0 < m.SpanOf(s).1 && m.SpanOf(s).0 <= k <= m.SpanOf(s).1
    ensures t < |m.Targets()| && k < |m.RowsLaid().targets| && m.RowsLaid().targets[k] == Some(m.Targets()[t])
  {
    OwnTargets(m, s, k);
    Position(m.Targets(), m.RowsLaid().targets[k].value)
  }

  /** What the boxes of its own targets take together, with the gaps between, down to row b. */
  function OwnRoom(m: Mapping, s: nat, b: nat): int
    requires m.Valid() && s < |m.Triggers()| && m.SpanOf(s).0 < m.SpanOf(s).1 && m.SpanOf(s).0 <= b <= m.SpanOf(s).1
  {
    NeedOf(m, TargetIn(m, s, b)) + if b == m.SpanOf(s).0 then 0 else OwnRoom(m, s, b - 1) + m.Gap()
  }

  lemma RowIsTarget(m: Mapping, s: nat, k: nat)
    requires m.Valid() && s < |m.Triggers()| && m.SpanOf(s).0 < m.SpanOf(s).1 && m.SpanOf(s).0 <= k <= m.SpanOf(s).1
    ensures HeightsReady(m) && k < |RowHeights(m)| && RowHeights(m)[k] == NeedOf(m, TargetIn(m, s, k))
  {
    hide IsMapping, AllRows, Span, Mapping.Triggers, Mapping.Targets, Mapping.SpanOf, NeedOf, Mapping.TargetHeight;
    hide HeightsReady, Raised, Mapping.RowsLaid, SpansOk;
    IsReady(m);
    var t := TargetIn(m, s, k);
    TargetNeeds(m, t);
    assert SpansOk(Spans(m), |BaseHeights(m)|) by { SpansFit(m); }
    NotAlone(m, s, k);
    RaisedExactly(BaseHeights(m), Spans(m), TriggerHeights(m), |Spans(m)|, k);
    assert BaseHeights(m)[k] == m.TargetHeight(m.Targets()[t]) by { BaseIs(m, k, t); }
  }

  lemma BaseIs(m: Mapping, k: nat, t: nat)
    requires HeightsReady(m) && k < |m.RowsLaid().targets| && t < |m.Targets()|
    requires m.RowsLaid().targets[k] == Some(m.Targets()[t]) && HasNode(m.ir.nodes, m.Targets()[t])
    ensures BaseHeights(m)[k] == m.TargetHeight(m.Targets()[t])
  {
    hide Mapping.TargetHeight, AllRows;
  }

  lemma SpansFit(m: Mapping)
    requires HeightsReady(m)
    ensures SpansOk(Spans(m), |m.RowsLaid().targets|)
  {
  }

  lemma NotAlone(m: Mapping, s: nat, k: nat)
    requires HeightsReady(m) && s < |m.Triggers()| && m.SpanOf(s).0 < m.SpanOf(s).1
             && m.SpanOf(s).0 <= k <= m.SpanOf(s).1
    ensures k < |m.RowsLaid().targets| && forall i: nat :: i < |Spans(m)| ==> !Alone(Spans(m), i, k)
  {
    hide AllRows, Span, Mapping.Triggers, Mapping.RowsLaid;
    assert Spans(m)[s] == m.SpanOf(s);
    forall i: nat | i < |Spans(m)| ensures !Alone(Spans(m), i, k) {
      if i < s {
        assert Spans(m)[i].1 < Spans(m)[s].0;
      } else if i > s {
        assert Spans(m)[s].1 < Spans(m)[i].0;
      }
    }
  }

  lemma {:induction false} OwnRoomIs(m: Mapping, s: nat, b: nat)
    requires m.Valid() && s < |m.Triggers()| && m.SpanOf(s).0 < m.SpanOf(s).1 && m.SpanOf(s).0 <= b <= m.SpanOf(s).1
    ensures HeightsReady(m) && b < |RowHeights(m)|
    ensures RowTop(RowHeights(m), m.Gap(), b) + RowHeights(m)[b]
            == RowTop(RowHeights(m), m.Gap(), m.SpanOf(s).0) + OwnRoom(m, s, b)
  {
    hide IsMapping, AllRows, Span, Mapping.Triggers, Mapping.Targets, Mapping.SpanOf, NeedOf, RowHeights;
    hide HeightsReady, Mapping.RowsLaid, Mapping.Gap, TargetIn;
    RowIsTarget(m, s, b);
    if b > m.SpanOf(s).0 {
      OwnRoomIs(m, s, b - 1);
    }
  }

  /** A trigger over several rows is as tall as its own targets' boxes and the gaps between
      them, whatever its own label needs; so its label has room exactly when theirs and their
      entries take that much. */
  lemma SeveralRowsTall(m: Mapping, s: nat)
    requires m.Valid() && s < |m.Triggers()| && m.SpanOf(s).0 < m.SpanOf(s).1
    ensures MarkSlab(m, Trigger(s)).h == OwnRoom(m, s, m.SpanOf(s).1)
  {
    hide IsMapping, AllRows, Span, Mapping.Triggers, Mapping.Targets, Mapping.SpanOf, RowHeights, OwnRoom;
    hide HeightsReady, Mapping.RowsLaid, Mapping.Gap, TriggerSlabs, Level, Mapping.TriggerHeight, RowTop;
    OwnRoomIs(m, s, m.SpanOf(s).1);
    TriggerPlaced(m, s);
  }

  /** A box has room for its label, 40 for one line and 18 for each more, exactly when it is no
      trigger over several rows whose own targets need less together. */
  lemma LabelHasRoomIff(m: Mapping, k: Mark)
    requires m.Valid() && HasMark(m, k)
    ensures MarkBox(m, k).h >= (40 + 18 * (|LabelLines(m, k)| - 1)) as real <==>
              (k.Trigger? && m.SpanOf(k.s).0 < m.SpanOf(k.s).1 ==>
                 OwnRoom(m, k.s, m.SpanOf(k.s).1) >= 40 + 18 * (|LabelLines(m, k)| - 1))
  {
    hide IsMapping, AllRows, Span, Mapping.Triggers, Mapping.Targets, Mapping.SpanOf, OwnRoom, LabelLines;
    hide Mapping.RowsLaid, MarkSlab, Mapping.Width, TargetX;
    if k.Target? {
      TargetTall(m, k.t);
    } else if m.SpanOf(k.s).0 == m.SpanOf(k.s).1 {
      OneRowTall(m, k.s);
    } else {
      SpanUp(m, k.s);
      SeveralRowsTall(m, k.s);
    }
  }

  lemma SpanUp(m: Mapping, s: nat)
    requires m.Valid() && s < |m.Triggers()|
    ensures m.SpanOf(s).0 <= m.SpanOf(s).1
  {
    hide IsMapping, AllRows;
  }

  // ---- labels, and the room they take ----

  /** An arrow has a label exactly when its text says something: the text's own measure, its
      right end 16 before the targets, its foot 8 above where the arrow enters. */
  lemma LabelStands(m: Mapping, i: nat)
    requires m.Valid() && i < |m.ir.edges|
    ensures Label(m, i).Some? <==> m.ir.edges[i].text != ""
    ensures Label(m, i).Some? ==>
              var r, l := Label(m, i).value, LabelBox(m.fonts, m.ir.edges[i].text);
              && r.w == l.w as real && r.h == l.h as real && l.h == 15 * |l.lines|
              && l.lines == Wrapped(m.fonts.adv, m.ir.edges[i].text, 180.0, RAMP_LABEL, Mono)
              && r.x + r.w + 16.0 == MarkBox(m, To(m, i)).x && r.y + r.h + 8.0 == Entry(m, i) as real
  {
    hide IsMapping, Entry, TargetX, LabelBox, Mapping.Width, MarkSlab, Wrapped;
    LabelMeasured(m.fonts, m.ir.edges[i].text);
  }

  /** A label's height, none for a bare arrow. */
  function HeightAt(m: Mapping, i: nat): int
    requires i < |m.ir.edges|
  {
    if m.ir.edges[i].text == "" then 0 else LabelBox(m.fonts, m.ir.edges[i].text).h
  }

  lemma {:induction false} TallestIs(fonts: Fonts, edges: seq<FlowEdge>)
    ensures forall i :: 0 <= i < |edges| ==> LabelHeight(fonts, edges[i]) <= TallestLabel(fonts, edges)
    ensures TallestLabel(fonts, edges) == 15
            || exists i :: 0 <= i < |edges| && LabelHeight(fonts, edges[i]) == TallestLabel(fonts, edges)
  {
    hide LabelHeight;
    if edges != [] {
      TallestIs(fonts, edges[1..]);
      assert forall i :: 0 < i < |edges| ==> edges[i] == edges[1..][i - 1];
      if TallestLabel(fonts, edges) != 15 && LabelHeight(fonts, edges[0]) != TallestLabel(fonts, edges) {
        var i :| 0 <= i < |edges[1..]| && LabelHeight(fonts, edges[1..][i]) == TallestLabel(fonts, edges[1..]);
        assert edges[i + 1] == edges[1..][i];
      }
    }
  }

  /** Some arrow into the target bears a label. */
  predicate LabelInto(m: Mapping, id: string) {
    exists i :: 0 <= i < |m.ir.edges| && m.ir.edges[i].to == id && m.ir.edges[i].text != ""
  }

  /** The tallest label there is, and no less than a line. */
  predicate Tallest(m: Mapping, h: int) {
    && h >= 15 && (forall i :: 0 <= i < |m.ir.edges| ==> HeightAt(m, i) <= h)
    && (h == 15 || exists i :: 0 <= i < |m.ir.edges| && HeightAt(m, i) == h)
  }

  /** Entries stand 16 apart, or with a label among them by the tallest label and 24; rows stand
      20 apart, or by the tallest label and 8 where that is more. */
  lemma LabelsSpace(m: Mapping, id: string) returns (h: int)
    ensures Tallest(m, h)
    ensures m.Spacing(id) == (if LabelInto(m, id) then h + 24 else 16) && m.Gap() == MaxI(20, h + 8)
  {
    hide LabelBox;
    h := TallestLabel(m.fonts, m.ir.edges);
    TallestIs(m.fonts, m.ir.edges);
    assert forall i :: 0 <= i < |m.ir.edges| ==> HeightAt(m, i) == LabelHeight(m.fonts, m.ir.edges[i]);
  }

  lemma {:induction false} WidestIs(fonts: Fonts, edges: seq<FlowEdge>)
    ensures forall i :: 0 <= i < |edges| && edges[i].text != "" ==>
              LabelBox(fonts, edges[i].text).w <= WidestArrowLabel(fonts, edges)
    ensures WidestArrowLabel(fonts, edges) == 0
            || exists i :: 0 <= i < |edges| && edges[i].text != ""
                           && LabelBox(fonts, edges[i].text).w == WidestArrowLabel(fonts, edges)
  {
    hide LabelBox;
    if edges != [] {
      WidestIs(fonts, edges[1..]);
      assert forall i :: 0 < i < |edges| ==> edges[i] == edges[1..][i - 1];
      if WidestArrowLabel(fonts, edges) == WidestArrowLabel(fonts, edges[1..]) && WidestArrowLabel(fonts, edges) != 0 {
        var i :| 0 <= i < |edges[1..]| && edges[1..][i].text != ""
                 && LabelBox(fonts, edges[1..][i].text).w == WidestArrowLabel(fonts, edges[1..]);
        assert edges[i + 1] == edges[1..][i];
      }
    }
  }

  predicate WidestText(m: Mapping, w: int) {
    && w >= 0
    && (forall i :: 0 <= i < |m.ir.edges| && m.ir.edges[i].text != "" ==> LabelBox(m.fonts, m.ir.edges[i].text).w <= w)
    && (w == 0 || exists i :: 0 <= i < |m.ir.edges| && m.ir.edges[i].text != ""
                              && LabelBox(m.fonts, m.ir.edges[i].text).w == w)
  }

  /** Across: 20, the triggers, as many lanes 12 apart as any way of sharing needs, the first 24
      past the frame, then 16 either side of the widest label, or 40 where there is none, to a
      multiple of 8. */
  lemma ColumnsStand(m: Mapping, k: Mark) returns (w: int)
    requires m.Valid() && HasMark(m, k)
    ensures WidestText(m, w) && MarkBox(m, k).w == m.Width() as real
    ensures var first, lanes := Frame(m, false).w, MaxI(0, LaneCount(m) - 1);
            var past := first + 24.0 + (12 * lanes) as real + (if w > 0 then 32 + w else 40) as real;
            if k.Trigger? then MarkBox(m, k).x == 20.0
            else past <= MarkBox(m, k).x < past + 8.0 && exists n: int :: MarkBox(m, k).x == (8 * n) as real
  {
    hide IsMapping, MarkSlab, Mapping.Width, LaneCount, FrameWidth, FrameHeight, LabelBox;
    w := WidestArrowLabel(m.fonts, m.ir.edges);
    WidestIs(m.fonts, m.ir.edges);
    var x := TargetX(m);
    assert x % 8 == 0;
    assert x == 8 * (x / 8);
  }

  /** Each frame starts 20 before its boxes, at the top, and is just wide enough for them and 20
      more, or for its title in the bold and 36 more; both end 20 under the lowest box. */
  lemma FramesSnug(m: Mapping, k: Mark)
    requires m.Valid() && HasMark(m, k)
    ensures var f, b := Frame(m, k.Target?), MarkBox(m, k);
            && f.x + 20.0 == b.x && f.y == 0.0
            && (f.w == b.w + 40.0 || SnugTitle(m, k.Target?, f.w))
            && f.w >= b.w + 40.0
            && f.h >= b.y + b.h + 20.0 && Frame(m, false).h == Frame(m, true).h
            && exists l: Mark :: HasMark(m, l) && f.h == MarkBox(m, l).y + MarkBox(m, l).h + 20.0
  {
    hide IsMapping, MarkSlab, Mapping.Width, TargetX, FrameHeight, TitleRoom;
    TitleSnug(m, k.Target?);
    var l := LowestBox(m, k);
  }

  /** No wider than the title and 36 take, to a multiple of 8. */
  predicate SnugTitle(m: Mapping, second: bool, w: real)
    requires |m.ir.zones| == 2
  {
    var tw := TextWidth(m.fonts.adv, m.ir.zones[if second then 1 else 0].title, RAMP_BOLD, Sans);
    tw + 36.0 <= w < tw + 44.0
  }

  lemma TitleSnug(m: Mapping, second: bool)
    requires |m.ir.zones| == 2
    ensures SnugTitle(m, second, TitleRoom(m.fonts.adv, m.ir.zones[if second then 1 else 0].title) as real)
  {
    hide TextWidth;
    RoundedSnug(TextWidth(m.fonts.adv, m.ir.zones[if second then 1 else 0].title, RAMP_BOLD, Sans) + 36.0);
  }

  lemma {:induction false} LowestIs(slabs: seq<Slab>) returns (i: nat)
    requires slabs != []
    ensures i < |slabs| && slabs[i].Foot() == Lowest(slabs)
    ensures forall j :: 0 <= j < |slabs| ==> slabs[j].Foot() <= Lowest(slabs)
  {
    i := 0;
    if |slabs| > 1 {
      var j := LowestIs(slabs[1..]);
      assert forall j :: 0 < j < |slabs| ==> slabs[j] == slabs[1..][j - 1];
      if slabs[0].Foot() < Lowest(slabs[1..]) {
        i := j + 1;
      }
    }
  }

  lemma LowestBox(m: Mapping, k: Mark) returns (l: Mark)
    requires m.Valid() && HasMark(m, k)
    ensures FrameHeight(m) >= MarkSlab(m, k).Foot() + 20
    ensures HasMark(m, l) && FrameHeight(m) == MarkSlab(m, l).Foot() + 20
  {
    hide IsMapping, TriggerSlabs, TargetSlabs, Lowest, Mapping.Triggers, Mapping.Targets, SlabOfTarget;
    BothColumns(m);
    var i := LowestIs(TriggerSlabs(m));
    var j := LowestIs(TargetSlabs(m));
    SlabsAre(m);
    l := if Lowest(TriggerSlabs(m)) >= Lowest(TargetSlabs(m)) then Trigger(i) else Target(j);
  }

  lemma SlabsAre(m: Mapping)
    requires m.Valid()
    ensures forall t: nat :: t < |m.Targets()| ==> TargetSlabs(m)[t] == MarkSlab(m, Target(t))
  {
    hide IsMapping, SlabOfTarget;
  }
}
