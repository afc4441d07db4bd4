// Every connector rule of ui/src/diagramCheck.ts on the drawing of a trigger-to-target
// mapping: which hold of every mapping, and exactly when the others do.
module MappingTheorem {
  import opened Counting
  import opened Geometry
  import opened Routes
  import opened Flow
  import opened MappingRows
  import opened MappingColumns
  import opened MappingExits
  import opened FlowMapping
  import opened MappingArrows
  import opened MappingTriggers
  import opened MappingLayout
  import opened MappingDrawing

  // ---- boxes ----

  /** Targets stand a gap apart. */
  lemma TargetsApart(m: Mapping, t: nat, u: nat)
    requires m.Valid() && t < |m.Targets()| && u < |m.Targets()| && t != u
    ensures var a, b := SlabOfTarget(m, t), SlabOfTarget(m, u); a.Foot() + m.Gap() <= b.y || b.Foot() + m.Gap() <= a.y
  {
    hide IsMapping, AllRows, HeightsReady, RowHeights, TargetSlab, Mapping.Gap, Mapping.RowsLaid, Mapping.Targets;
    TargetReady(m, t);
    TargetReady(m, u);
    TargetsDistinct(m, t, u);
    TargetSlabsApart(m, m.Targets()[t], m.Targets()[u]);
  }

  lemma TargetsDistinct(m: Mapping, t: nat, u: nat)
    requires m.Valid() && t < |m.Targets()| && u < |m.Targets()| && t != u
    ensures m.Targets()[t] != m.Targets()[u]
  {
    hide IsMapping;
    InZoneHolds(m.ir.nodes, m.ir.zones[1].id);
  }

  lemma MarkTall(m: Mapping, k: Mark)
    requires m.Valid() && HasMark(m, k)
    ensures MarkSlab(m, k).h >= 40 && MarkSlab(m, k).y >= ZONE_TOP
  {
    hide IsMapping, AllRows, RowHeights, TriggerSlabs, TargetSlab, HeightsReady, RowTop, Mapping.TargetHeight;
    hide Mapping.Gap, Mapping.Triggers;
    if k.Trigger? {
      TriggerTall(m, k.s);
      TriggerLow(m, k.s);
    } else {
      TargetReady(m, k.t);
      assert m.Targets()[k.t] in m.Targets();
      TargetSlabRow(m, m.Targets()[k.t]);
      RowsTall(m);
      RowLow(m, m.RowsLaid().rowOf[m.Targets()[k.t]]);
      TargetTall(m, m.Targets()[k.t]);
    }
  }

  lemma RowLow(m: Mapping, r: nat)
    requires m.Valid() && HeightsReady(m) && Heights(RowHeights(m)) && r <= |RowHeights(m)|
    ensures RowTop(RowHeights(m), m.Gap(), r) >= ZONE_TOP
  {
    hide IsMapping, RowHeights, HeightsReady;
    RowsDescend(RowHeights(m), m.Gap(), 0, r);
  }

  lemma TargetTall(m: Mapping, t: string)
    requires HasNode(m.ir.nodes, t)
    ensures m.TargetHeight(t) >= 40
  {
  }

  lemma TriggerLow(m: Mapping, s: nat)
    requires m.Valid() && s < |m.Triggers()|
    ensures TriggerSlabs(m)[s].y >= ZONE_TOP
  {
    hide IsMapping, AllRows, RowTop, Level, RowHeights, SlabOk, TriggersOk, Slabs;
    TriggersReady(m);
    RowsTall(m);
    SlabsLow(Spans(m), TriggerHeights(m), Levels(m), RowHeights(m), m.Gap(), |m.Triggers()|, s);
  }

  lemma {:induction false} SlabsLow(spans: seq<(nat, nat)>, ths: seq<int>, levels: seq<Option<int>>, hs: seq<int>,
                                    gap: int, n: nat, i: nat)
    requires TriggersOk(spans, ths, levels, hs, gap) && i < n <= |spans|
    ensures Slabs(spans, ths, levels, hs, gap, n)[i].y >= ZONE_TOP
  {
    if i < n - 1 {
      SlabsLow(spans, ths, levels, hs, gap, n - 1, i);
    } else {
      SlabsFollow(spans, ths, levels, hs, gap, n);
      RowsDescend(hs, gap, 0, spans[i].0);
      if i > 0 {
        SlabsLow(spans, ths, levels, hs, gap, n - 1, i - 1);
      }
    }
  }

  /** No two nodes overlap. */
  lemma NodesApart(m: Mapping, a: Mark, b: Mark)
    requires m.Valid() && HasMark(m, a) && HasMark(m, b) && a != b
    ensures !Overlaps(MarkBox(m, a), MarkBox(m, b))
  {
    hide IsMapping, TriggerSlabs, SlabOfTarget, Mapping.Gap, Mapping.Width, Mapping.Triggers, TargetX, LastLane;
    LanesBetween(m);
    if a.Trigger? && b.Trigger? {
      TriggersApart(m, MinN(a.s, b.s), MaxN(a.s, b.s));
    } else if a.Target? && b.Target? {
      TargetsApart(m, a.t, b.t);
    }
  }

  function MinN(a: nat, b: nat): nat {
    if a < b then a else b
  }

  function MaxN(a: nat, b: nat): nat {
    if a < b then b else a
  }

  lemma LanesBetween(m: Mapping)
    requires m.Valid()
    ensures ZONE_SIDE + m.Width() + 44 <= LastLane(m) && LastLane(m) + 32 <= TargetX(m) && m.Width() >= 160
  {
    hide IsMapping, TargetX;
    LaneBound(0, LaneCount(m));
  }

  /** The frames lie side by side, each around its own column with room for its title. */
  lemma FramesHold(m: Mapping, k: Mark)
    requires m.Valid() && HasMark(m, k)
    ensures Contains(Inset(Frame(m, k.Target?), 20.0), MarkBox(m, k))
    ensures MarkBox(m, k).y >= Frame(m, k.Target?).y + 44.0
    ensures !Overlaps(Frame(m, false), Frame(m, true))
    ensures Frame(m, false).w >= TitleRoom(m.fonts.adv, m.ir.zones[0].title) as real
    ensures Frame(m, true).w >= TitleRoom(m.fonts.adv, m.ir.zones[1].title) as real
  {
    hide IsMapping, TriggerSlabs, SlabOfTarget, Mapping.Width, TargetX, LastLane, FrameHeight;
    FramesApart(m);
    MarkTall(m, k);
    MarkLow(m, k);
  }

  lemma FramesApart(m: Mapping)
    requires m.Valid()
    ensures FrameWidth(m) <= TargetX(m) - ZONE_SIDE
  {
    hide IsMapping, TargetX, FrameWidth;
    LaneBound(0, LaneCount(m));
  }

  lemma MarkLow(m: Mapping, k: Mark)
    requires m.Valid() && HasMark(m, k)
    ensures MarkSlab(m, k).Foot() + ZONE_BOTTOM <= FrameHeight(m)
  {
    hide IsMapping, TriggerSlabs, SlabOfTarget;
    BothColumns(m);
    assert MarkSlab(m, k) in if k.Trigger? then TriggerSlabs(m) else TargetSlabs(m) by {
      if k.Trigger? {
        assert TriggerSlabs(m)[k.s] in TriggerSlabs(m);
      } else {
        assert TargetSlabs(m)[k.t] in TargetSlabs(m);
      }
    }
  }

  // ---- one arrow and the boxes ----

  lemma NearestWithin(box: Slab, want: int, exits: seq<int>)
    requires box.h >= 40
    ensures box.y + HALF <= NearestExit(box, want, exits) <= box.Foot() - HALF
  {
    BestIsNearest(box, want, exits, Tries(box));
  }

  /** An arrow leaves its trigger within its height. */
  lemma ExitWithin(m: Mapping, i: nat)
    requires m.Valid() && i < |m.ir.edges|
    ensures var box := MarkSlab(m, From(m, i)); box.y + HALF <= Exit(m, i) <= box.Foot() - HALF
  {
    hide IsMapping, TriggerSlabs, Entry, NearestExit, Exits, ExitOrder, Mapping.Triggers, Straight;
    EdgeEnds(m, i);
    if Straight(m, i) {
      StraightExits(m, i);
      StraightMeetsTrigger(m, i, From(m, i).s);
    } else {
      MarkTall(m, From(m, i));
      ExitOrderHolds(m);
      var taken := ExitOrder(m)[..Position(ExitOrder(m), i)];
      NearestWithin(SourceSlab(m, i), Entry(m, i), Exits(m, taken, m.ir.edges[i].from));
    }
  }

  lemma EntryInside(m: Mapping, i: nat)
    requires m.Valid() && i < |m.ir.edges|
    ensures var box := MarkSlab(m, To(m, i)); box.y + HALF <= Entry(m, i) <= box.Foot() - HALF
  {
    hide IsMapping, TargetSlab, Entry, HeightsReady, Mapping.Targets;
    EdgeEnds(m, i);
    TargetReady(m, To(m, i).t);
    EntryWithin(m, i);
  }

  /** Every arrow is drawn level and upright, leaves its trigger and enters its target
      straight through their facing sides, and passes behind no node. */
  lemma RouteMeets(m: Mapping, i: nat, k: Mark)
    requires m.Valid() && i < |m.ir.edges| && HasMark(m, k)
    ensures var q := Route(m, i);
            && Square(q) && PassesNone(q, MarkBox(m, k))
            && Joins(MarkBox(m, From(m, i)), q[0], q[1]) && Joins(MarkBox(m, To(m, i)), q[|q| - 1], q[|q| - 2])
  {
    hide IsMapping, MarkSlab, Entry, Exit, Mapping.Width, TargetX, LastLane, LaneLine, From, To, HasMark;
    LaneWithin(m, i);
    ExitWithin(m, i);
    EntryInside(m, i);
    assert From(m, i).Trigger? && To(m, i).Target? by { EndKinds(m, i); }
  }

  lemma EndKinds(m: Mapping, i: nat)
    requires m.Valid() && i < |m.ir.edges|
    ensures From(m, i).Trigger? && To(m, i).Target?
  {
  }

  // ---- two arrows ----

  /** Arrows out of different triggers leave at different heights. */
  lemma ExitsDiffer(m: Mapping, i: nat, j: nat)
    requires m.Valid() && i < |m.ir.edges| && j < |m.ir.edges| && m.ir.edges[i].from != m.ir.edges[j].from
    ensures Exit(m, i) != Exit(m, j)
  {
    hide IsMapping, TriggerSlabs, Exit, Mapping.Triggers;
    EdgeEnds(m, i);
    EdgeEnds(m, j);
    ExitWithin(m, i);
    ExitWithin(m, j);
    var s, t := From(m, i).s, From(m, j).s;
    assert s != t;
    TriggersApart(m, MinN(s, t), MaxN(s, t));
  }

  lemma {:induction false} TallestHolds(fonts: Fonts, edges: seq<FlowEdge>, i: nat)
    requires i < |edges|
    ensures LabelHeight(fonts, edges[i]) <= TallestLabel(fonts, edges)
  {
    hide LabelHeight;
    if i > 0 {
      TallestHolds(fonts, edges[1..], i - 1);
    }
  }

  lemma {:induction false} WidestHolds(fonts: Fonts, edges: seq<FlowEdge>, i: nat)
    requires i < |edges| && edges[i].text != ""
    ensures LabelBox(fonts, edges[i].text).w <= WidestArrowLabel(fonts, edges)
  {
    hide LabelBox;
    if i > 0 {
      WidestHolds(fonts, edges[1..], i - 1);
    }
  }

  /** No arrow enters within a label's height above a labelled one, nor two at one height. */
  lemma EntriesSpread(m: Mapping, i: nat, j: nat)
    requires m.Valid() && i < |m.ir.edges| && j < |m.ir.edges| && i != j
    ensures Entry(m, i) != Entry(m, j)
    ensures m.ir.edges[i].text != "" ==>
              Entry(m, j) > Entry(m, i)
              || Entry(m, j) <= Entry(m, i) - LabelHeight(m.fonts, m.ir.edges[i]) - 3 * LABEL_GAP
  {
    hide IsMapping, Entry, SlabOfTarget, TallestLabel, LabelHeight, Mapping.Spacing, Mapping.Gap, Mapping.Targets;
    TallestHolds(m.fonts, m.ir.edges, i);
    if m.ir.edges[i].to == m.ir.edges[j].to {
      EntriesApart(m, i, j);
      assert m.ir.edges[i].text != "" ==> m.Labelled(m.ir.edges[i].to);
    } else {
      EdgeEnds(m, i);
      EdgeEnds(m, j);
      EntryInside(m, i);
      EntryInside(m, j);
      TargetsApart(m, To(m, i).t, To(m, j).t);
    }
  }

  /** The stretch out of one arrow's trigger lies at the height of the other's entry, and
      reaches past the lane it comes in from. */
  predicate ExitOnEntry(m: Mapping, i: nat, j: nat)
    requires m.Valid() && i < |m.ir.edges| && j < |m.ir.edges|
  {
    Turns(m, i) && Turns(m, j) && Exit(m, i) == Entry(m, j) && LaneIndex(m, j) < LaneIndex(m, i)
  }

  /** What makes two bends run on top of each other. */
  predicate Meeting(y0: int, y1: int, lane: int, z0: int, z1: int, other: int) {
    y0 == z0 || (y0 != y1 && z0 != z1 && ((y0 == z1 && other < lane) || (z0 == y1 && lane < other)))
  }

  lemma BendsTogether(xs: int, xt: int, la: int, y0: int, y1: int, lb: int, z0: int, z1: int)
    requires xs < la < xt && xs < lb < xt && y1 != z1
    requires y0 != y1 && z0 != z1 && la == lb ==> MaxI(y0, y1) < MinI(z0, z1) || MaxI(z0, z1) < MinI(y0, y1)
    ensures RoutesTogether(Bend(xs, la, xt, y0, y1), Bend(xs, lb, xt, z0, z1)) <==> Meeting(y0, y1, la, z0, z1, lb)
  {
    var p, q := Bend(xs, la, xt, y0, y1), Bend(xs, lb, xt, z0, z1);
    if Meeting(y0, y1, la, z0, z1, lb) {
      if y0 == z0 {
        assert TogetherAt(p, q, 0, 0);
      } else if y0 == z1 && lb < la {
        assert TogetherAt(p, q, 0, 2);
      } else {
        assert TogetherAt(p, q, 2, 0);
      }
    } else {
      forall i: nat, j: nat ensures !TogetherAt(p, q, i, j) {
      }
    }
  }

  /** The exits taken before arrow i took its own. */
  function TakenBefore(m: Mapping, i: nat): seq<int>
    requires m.Valid() && i < |m.ir.edges|
  {
    ExitOrderHolds(m);
    Exits(m, ExitOrder(m)[..Position(ExitOrder(m), i)], m.ir.edges[i].from)
  }

  /** The search for a bent arrow's exit finds no free height, and falls back on the middle
      of the trigger. */
  predicate FallsBack(m: Mapping, i: nat)
    requires m.Valid() && i < |m.ir.edges|
  {
    !Straight(m, i) && Best(SourceSlab(m, i), Entry(m, i), TakenBefore(m, i), Tries(SourceSlab(m, i))).None?
  }

  function MiddleOf(box: Slab): int {
    RoundHalf(2 * box.y + box.h)
  }

  /** Arrow i takes its exit before arrow j. */
  predicate Before(m: Mapping, i: nat, j: nat)
    requires m.Valid() && i < |m.ir.edges| && j < |m.ir.edges|
  {
    ExitOrderHolds(m);
    Position(ExitOrder(m), i) < Position(ExitOrder(m), j)
  }

  /** Two arrows of one trigger, the later falling back on the middle it finds taken. */
  predicate Crowds(m: Mapping, i: nat, j: nat)
    requires m.Valid() && i < |m.ir.edges| && j < |m.ir.edges|
  {
    && m.ir.edges[i].from == m.ir.edges[j].from && Before(m, i, j)
    && FallsBack(m, j) && Exit(m, i) == MiddleOf(SourceSlab(m, j))
  }

  /** An arrow leaves where its search says. */
  lemma ExitFound(m: Mapping, i: nat)
    requires m.Valid() && i < |m.ir.edges| && !Straight(m, i)
    ensures Exit(m, i) == NearestExit(SourceSlab(m, i), Entry(m, i), TakenBefore(m, i))
  {
    hide IsMapping, ExitOrder, Exits, NearestExit, Straight, Entry, SourceSlab;
    ExitAt(m, i);
  }

  /** An arrow's exit is among those taken before a later one of its trigger. */
  lemma TakenIs(m: Mapping, i: nat, j: nat)
    requires m.Valid() && i < |m.ir.edges| && j < |m.ir.edges| && m.ir.edges[i].from == m.ir.edges[j].from
    requires Before(m, i, j)
    ensures Exit(m, i) in TakenBefore(m, j)
  {
    hide IsMapping, ExitOrder, ExitAfter, Exits, Exit;
    ExitOrderHolds(m);
    ExitAt(m, i);
    var k := ExitAmong(m, Position(ExitOrder(m), j), Position(ExitOrder(m), i), m.ir.edges[i].from);
  }

  /** Two arrows leave at one height exactly when one of them falls back on the middle of
      its trigger, and that is where the other left before. */
  lemma ExitsEqualIff(m: Mapping, i: nat, j: nat)
    requires m.Valid() && i < |m.ir.edges| && j < |m.ir.edges| && i != j
    ensures Exit(m, i) == Exit(m, j) <==> Crowds(m, i, j) || Crowds(m, j, i)
  {
    hide IsMapping, Exit, TakenBefore, FallsBack, ExitOrder, Before;
    if m.ir.edges[i].from != m.ir.edges[j].from {
      ExitsDiffer(m, i, j);
    } else if Before(m, i, j) {
      LaterExit(m, i, j);
    } else {
      OneBefore(m, i, j);
      LaterExit(m, j, i);
    }
  }

  lemma OneBefore(m: Mapping, i: nat, j: nat)
    requires m.Valid() && i < |m.ir.edges| && j < |m.ir.edges| && i != j
    ensures Before(m, i, j) <==> !Before(m, j, i)
  {
    hide IsMapping, ExitOrder;
    ExitOrderHolds(m);
    var order := ExitOrder(m);
    assert order[Position(order, i)] == i && order[Position(order, j)] == j;
  }

  lemma LaterExit(m: Mapping, i: nat, j: nat)
    requires m.Valid() && i < |m.ir.edges| && j < |m.ir.edges| && i != j
    requires m.ir.edges[i].from == m.ir.edges[j].from && Before(m, i, j)
    ensures !Crowds(m, j, i) && (Exit(m, i) == Exit(m, j) <==> Crowds(m, i, j))
  {
    hide IsMapping, Exit, TakenBefore, ExitOrder, Before, Straight, Entry, SourceSlab, Best, Tries;
    OneBefore(m, i, j);
    TakenIs(m, i, j);
    if Straight(m, j) {
      StraightFirst(m, i, j);
      StraightExits(m, i);
      StraightExits(m, j);
      EntriesSpread(m, i, j);
    } else {
      ExitFound(m, j);
      if !FallsBack(m, j) {
        BestIsNearest(SourceSlab(m, j), Entry(m, j), TakenBefore(m, j), Tries(SourceSlab(m, j)));
      }
    }
  }

  lemma StraightFirst(m: Mapping, i: nat, j: nat)
    requires m.Valid() && i < |m.ir.edges| && j < |m.ir.edges| && Before(m, i, j) && Straight(m, j)
    ensures Straight(m, i)
  {
    hide IsMapping, ExitOrder, Straight;
    ExitOrderHolds(m);
    var order := ExitOrder(m);
    assert order[Position(order, i)] == i && order[Position(order, j)] == j;
  }

  /** Two arrows run on top of each other exactly when one falls back on the middle where the
      other left, or the stretch out of one lies on the stretch into the other. */
  lemma RoutesTogetherIff(m: Mapping, i: nat, j: nat)
    requires m.Valid() && i < |m.ir.edges| && j < |m.ir.edges| && i != j
    ensures RoutesTogether(Route(m, i), Route(m, j))
            <==> Crowds(m, i, j) || Crowds(m, j, i) || ExitOnEntry(m, i, j) || ExitOnEntry(m, j, i)
  {
    hide IsMapping, Exit, Entry, LaneIndex, RoutesTogether, Mapping.Width, TargetX, LastLane, FirstLane, Crowds;
    LaneWithin(m, i);
    LaneWithin(m, j);
    EntriesSpread(m, i, j);
    ExitsEqualIff(m, i, j);
    if Turns(m, i) && Turns(m, j) && LaneIndex(m, i) == LaneIndex(m, j) {
      LanesShared(m, i, j);
    }
    BendsTogether(ZONE_SIDE + m.Width(), TargetX(m), LaneLine(m, i), Exit(m, i), Entry(m, i),
                  LaneLine(m, j), Exit(m, j), Entry(m, j));
  }

  /** They share an attach point exactly when one falls back on the middle where the other
      left. */
  lemma EndsSharedIff(m: Mapping, i: nat, j: nat)
    requires m.Valid() && i < |m.ir.edges| && j < |m.ir.edges| && i != j
    ensures EndsShared(Route(m, i), Route(m, j)) <==> Crowds(m, i, j) || Crowds(m, j, i)
  {
    hide IsMapping, Exit, Entry, LaneLine, Mapping.Width, TargetX, LastLane, Crowds;
    LanesBetween(m);
    EntriesSpread(m, i, j);
    ExitsEqualIff(m, i, j);
  }

  /** No way out lies on a way in that enters above or below the trigger left. */
  lemma EntryBeyond(m: Mapping, i: nat, j: nat)
    requires m.Valid() && i < |m.ir.edges| && j < |m.ir.edges|
    requires var box := MarkSlab(m, From(m, i)); Entry(m, j) < box.y + HALF || Entry(m, j) > box.Foot() - HALF
    ensures !ExitOnEntry(m, i, j)
  {
    hide IsMapping, Exit, Entry, MarkSlab, From, LaneIndex;
    ExitWithin(m, i);
  }

  /** Out of a trigger with room for its exits no arrow shares an attach point with another,
      and it runs on top of one only where a way out lies on a way in. */
  lemma RoomyRoutesApart(m: Mapping, i: nat, j: nat)
    requires m.Valid() && i < |m.ir.edges| && j < |m.ir.edges| && i != j && Roomy(m, From(m, i).s)
    ensures !EndsShared(Route(m, i), Route(m, j))
    ensures RoutesTogether(Route(m, i), Route(m, j)) <==> ExitOnEntry(m, i, j) || ExitOnEntry(m, j, i)
  {
    hide IsMapping, Exit, Entry, Route, LaneIndex, RoutesTogether, EndsShared, Roomy, Mapping.Triggers, Crowds;
    EdgeEnds(m, i);
    EndsSharedIff(m, i, j);
    RoutesTogetherIff(m, i, j);
    ExitsEqualIff(m, i, j);
    if m.ir.edges[i].from == m.ir.edges[j].from {
      ExitsApart(m, i, j, From(m, i).s);
    } else {
      ExitsDiffer(m, i, j);
    }
  }

  // ---- labels ----

  /** A box is at least so far from every segment of a route. */
  predicate ClearOf(r: Rect, q: seq<Point>, least: real) {
    forall k :: 0 <= k < |q| - 1 ==> Clear(r, q[k], q[k + 1], least)
  }

  lemma BendClear(xs: int, lx: int, xt: int, y0: int, y1: int, x: int, w: int, s: Slab)
    requires xs <= lx <= x - LABEL_GAP && lx <= xt && w >= 0 && s.h >= 0
    requires y1 >= s.Foot() + LABEL_GAP || y1 <= s.y - LABEL_GAP
    ensures ClearOf(BoxAt(x, w, s), Bend(xs, lx, xt, y0, y1), 8.0)
  {
    var r, q := BoxAt(x, w, s), Bend(xs, lx, xt, y0, y1);
    forall k | 0 <= k < |q| - 1 ensures Clear(r, q[k], q[k + 1], 8.0) {
      if q[k].y == q[k + 1].y == y1 as real {
        assert GapY(r, q[k], q[k + 1]) >= 8.0;
      } else {
        assert GapX(r, q[k], q[k + 1]) >= 8.0;
      }
      ClearByGap(r, q[k], q[k + 1], 8.0);
    }
  }

  lemma LabelPlaced(m: Mapping, i: nat)
    requires m.Valid() && i < |m.ir.edges| && m.ir.edges[i].text != ""
    ensures var l := LabelBox(m.fonts, m.ir.edges[i].text);
            LastLane(m) + LABEL_ROOM <= TargetX(m) - LABEL_ROOM - l.w && l.h == LabelHeight(m.fonts, m.ir.edges[i])
  {
    hide IsMapping, LabelBox, LastLane, WidestArrowLabel, TargetX;
    WidestHolds(m.fonts, m.ir.edges, i);
  }

  /** A label is 8 clear of its own arrow and of every other. */
  lemma LabelClear(m: Mapping, i: nat, j: nat)
    requires m.Valid() && i < |m.ir.edges| && j < |m.ir.edges| && Label(m, i).Some?
    ensures ClearOf(Label(m, i).value, Route(m, j), 8.0)
  {
    hide IsMapping, Exit, Entry, LaneLine, LastLane, LabelBox, Mapping.Width, TargetX, LabelHeight;
    LabelPlaced(m, i);
    LaneWithin(m, j);
    if i != j {
      EntriesSpread(m, i, j);
    }
    var l := LabelBox(m.fonts, m.ir.edges[i].text);
    BendClear(ZONE_SIDE + m.Width(), LaneLine(m, j), TargetX(m), Exit(m, j), Entry(m, j),
              TargetX(m) - LABEL_ROOM - l.w, l.w, Slab(Entry(m, i) - LABEL_GAP - l.h, l.h));
  }

  /** It lies over no node and over no other label. */
  lemma LabelApart(m: Mapping, i: nat, j: nat, k: Mark)
    requires m.Valid() && i < |m.ir.edges| && j < |m.ir.edges| && HasMark(m, k) && Label(m, i).Some?
    ensures !Overlaps(Label(m, i).value, MarkBox(m, k))
    ensures i != j && Label(m, j).Some? ==> !Overlaps(Label(m, i).value, Label(m, j).value)
  {
    hide IsMapping, Entry, LastLane, LabelBox, Mapping.Width, TargetX, LabelHeight, MarkSlab;
    LabelPlaced(m, i);
    LanesBetween(m);
    if i != j && Label(m, j).Some? {
      LabelPlaced(m, j);
      EntriesSpread(m, i, j);
      EntriesSpread(m, j, i);
    }
  }
}
