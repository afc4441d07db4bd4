// A mapping in which one arrow's way out lies on another's way in, whatever the fonts.
module MappingTangled {
  import opened Counting
  import opened Geometry
  import opened Sorting
  import opened Flow
  import opened FlowLabels
  import opened MappingRows
  import opened MappingColumns
  import opened MappingExits
  import opened FlowMapping
  import opened MappingArrows
  import opened MappingTriggers
  import opened MappingLayout
  import opened MappingTheorem
  import opened Routes
  import opened MappingPlain
  import MappingLanes

  const FOUR := ["a", "b", "c", "d"]
  const THREE := ["x", "y", "z"]

  function Six(): seq<FlowEdge> {
    [Arrow("d", "x"), Arrow("a", "z"), Arrow("b", "z"), Arrow("c", "z"), Arrow("c", "x"), Arrow("c", "y")]
  }

  predicate TangledShape(edges: seq<FlowEdge>) {
    && |edges| == 6
    && (forall i: nat :: i < 6 ==> edges[i].text == "" && edges[i].from == ["d", "a", "b", "c", "c", "c"][i])
    && (forall i: nat :: i < 6 ==> edges[i].to == ["x", "z", "z", "z", "x", "y"][i])
  }

  lemma SixShape()
    ensures TangledShape(Six())
  {
  }

  lemma TangledPlain(edges: seq<FlowEdge>)
    requires TangledShape(edges)
    ensures Plain(FOUR, THREE, edges)
  {
    hide OneWord;
    assert forall id <- FOUR + THREE :: OneWord(id) by { TangledWords(); }
    forall e | e in edges ensures e.from in FOUR && e.to in THREE && e.text == "" {
      var i :| 0 <= i < |edges| && edges[i] == e;
    }
  }

  lemma TangledWords()
    ensures forall id <- FOUR + THREE :: OneWord(id)
  {
  }

  lemma TangledOut(edges: seq<FlowEdge>)
    requires TangledShape(edges)
    ensures OutOf(edges, "a") == [1] && OutOf(edges, "b") == [2] && OutOf(edges, "c") == [3, 4, 5]
    ensures OutOf(edges, "d") == [0]
  {
    hide OutOf;
    OutIs(edges, "a", [1]);
    OutIs(edges, "b", [2]);
    OutIs(edges, "c", [3, 4, 5]);
    OutIs(edges, "d", [0]);
  }

  lemma TangledReaches(edges: seq<FlowEdge>)
    requires TangledShape(edges)
    ensures Reaches(edges, "a") == ["z"] && Reaches(edges, "b") == ["z"] && Reaches(edges, "d") == ["x"]
    ensures Reaches(edges, "c") == ["z"] + ["x", "y"]
  {
    hide OutOf;
    TangledOut(edges);
  }

  lemma TangledInto(edges: seq<FlowEdge>)
    requires TangledShape(edges)
    ensures Into(edges, "x") == [0, 4] && Into(edges, "y") == [5] && Into(edges, "z") == [1, 2, 3]
  {
    hide Into;
    IntoIs(edges, "x", [0, 4]);
    IntoIs(edges, "y", [5]);
    IntoIs(edges, "z", [1, 2, 3]);
  }

  const ROW_A := Rows([Some("z")], map["z" := 0])
  const ROW_B := Rows(ROW_A.targets + [None], ROW_A.rowOf)
  const ROWS_C := Rows(ROW_B.targets + [Some("x"), Some("y")], ROW_B.rowOf["x" := 2]["y" := 3])
  const ROW_D := Rows(ROWS_C.targets + [None], ROWS_C.rowOf)

  lemma TangledRows(edges: seq<FlowEdge>)
    requires TangledShape(edges)
    ensures TriggerRows(edges, FOUR[..0]) == NO_ROWS && TriggerRows(edges, FOUR[..1]) == ROW_A
    ensures TriggerRows(edges, FOUR[..2]) == ROW_B && TriggerRows(edges, FOUR[..3]) == ROWS_C
    ensures TriggerRows(edges, FOUR[..4]) == ROW_D && AllRows(edges, FOUR, THREE) == ROW_D
  {
    hide OpenRows, AddTargets, TangledShape, TriggerRows;
    TangledOpens(edges);
    assert TriggerRows(edges, FOUR[..0]) == NO_ROWS by { NoRowsYet(edges); }
    TriggerNext(edges, FOUR, 0);
    TriggerNext(edges, FOUR, 1);
    TriggerNext(edges, FOUR, 2);
    TriggerNext(edges, FOUR, 3);
    assert FOUR[..4] == FOUR;
    AddKnown(ROW_D, THREE);
  }

  lemma NoRowsYet(edges: seq<FlowEdge>)
    ensures TriggerRows(edges, FOUR[..0]) == NO_ROWS
  {
  }

  lemma TangledOpens(edges: seq<FlowEdge>)
    requires TangledShape(edges)
    ensures OpenRows(edges, NO_ROWS, "a") == ROW_A && OpenRows(edges, ROW_A, "b") == ROW_B
    ensures OpenRows(edges, ROW_B, "c") == ROWS_C && OpenRows(edges, ROWS_C, "d") == ROW_D
  {
    TangledReaches(edges);
    hide Reaches, AddTargets, TangledShape;
    AddFirst();
    AddKnown(ROW_A, ["z"]);
    AddKnown(ROWS_C, ["x"]);
    AddThird();
  }

  lemma AddFirst()
    ensures AddTargets(NO_ROWS, ["z"]) == ROW_A
  {
    AddMore(NO_ROWS, [], "z");
    assert [] + ["z"] == ["z"];
  }

  lemma AddThird()
    ensures AddTargets(ROW_B, ["z"] + ["x", "y"]) == ROWS_C
  {
    AddJoins(ROW_B, ["z"], ["x", "y"]);
    AddKnown(ROW_B, ["z"]);
    AddMore(ROW_B, ["x"], "y");
    AddMore(ROW_B, [], "x");
    assert ["x"] + ["y"] == ["x", "y"] && [] + ["x"] == ["x"] && AddTargets(ROW_B, []) == ROW_B;
    var x := AddTarget(AddTarget(ROW_B, "x"), "y");
    assert x.targets == ROWS_C.targets;
    assert x == ROWS_C;
  }

  ghost predicate Named(m: Mapping) {
    && m.Valid() && TangledShape(m.ir.edges) && m.Triggers() == FOUR && m.Targets() == THREE
    && m.Gap() == 23 && (forall id :: m.Spacing(id) == 16)
    && (forall k: nat :: k < 4 ==> HasNode(m.ir.nodes, FOUR[k]) && IndexOf(m.ir.nodes, FOUR[k]) == k)
  }

  ghost predicate Stacked(m: Mapping) {
    && HeightsReady(m) && m.RowsLaid() == ROW_D && Spans(m) == [(0, 0), (1, 1), (2, 3), (4, 4)]
    && BaseHeights(m) == [64, 0, 48, 40, 0]
    && |TriggerHeights(m)| == 4 && TriggerHeights(m)[0] == TriggerHeights(m)[1] == TriggerHeights(m)[3] == 40
  }

  /** What the layout of this mapping rests on. */
  lemma TangledReady(fonts: Fonts)
    ensures var m := Made(fonts, FOUR, THREE, Six()); Named(m) && Stacked(m)
  {
    hide IsMapping, AllRows, TriggerRows, HeightsReady, Mapping.TargetHeight, Mapping.TriggerHeight, Mapping.Gap;
    hide Mapping.Spacing, Six, TangledShape, Plain, Column, Made, Mapping.Triggers, Mapping.Targets, Stacked;
    var edges := Six();
    var m := Made(fonts, FOUR, THREE, edges);
    SixShape();
    assert m.ir.edges == edges by { MadeWith(fonts, FOUR, THREE, edges); }
    TangledPlain(edges);
    MadeValid(fonts, FOUR, THREE, edges);
    MadeSizes(fonts, FOUR, THREE, edges);
    MadeTriggers(fonts, FOUR, THREE, edges);
    TangledStacked(m);
  }

  lemma MadeWith(fonts: Fonts, triggers: seq<string>, targets: seq<string>, edges: seq<FlowEdge>)
    ensures Made(fonts, triggers, targets, edges).ir.edges == edges
  {
  }

  lemma TangledStacked(m: Mapping)
    requires m.Valid() && TangledShape(m.ir.edges) && m.Triggers() == FOUR && m.Targets() == THREE
    requires forall t <- THREE ::
               HasNode(m.ir.nodes, t) && m.TargetHeight(t) == MaxI(40, Slotted(|Into(m.ir.edges, t)|, 16))
    requires forall s <- FOUR ::
               HasNode(m.ir.nodes, s) && m.TriggerHeight(s) == MaxI(40, ExitRoom(|OutOf(m.ir.edges, s)|))
    ensures Stacked(m)
  {
    hide IsMapping, AllRows, TriggerRows, HeightsReady, Mapping.TargetHeight, Mapping.TriggerHeight, Slotted, ExitRoom;
    hide TangledShape, Mapping.Triggers, Mapping.Targets, Spans, BaseHeights, TriggerHeights;
    TangledRows(m.ir.edges);
    IsReady(m);
    TangledSpans(m);
    TangledInto(m.ir.edges);
    assert Slotted(3, 16) == 64 && Slotted(2, 16) == 48 && Slotted(1, 16) == 0 by { Slots(); }
    TangledBase(m);
    TangledOut(m.ir.edges);
    assert ExitRoom(1) == 0 by { Slots(); }
    TangledHeights(m);
  }

  lemma Slots()
    ensures Slotted(3, 16) == 64 && Slotted(2, 16) == 48 && Slotted(1, 16) == 0 && ExitRoom(1) == 0
  {
  }

  lemma TangledSpans(m: Mapping)
    requires m.Valid() && TangledShape(m.ir.edges) && m.Triggers() == FOUR
    ensures Spans(m) == [(0, 0), (1, 1), (2, 3), (4, 4)]
  {
    hide IsMapping, AllRows, TriggerRows, TangledShape, Mapping.Triggers;
    TangledRows(m.ir.edges);
    assert m.SpanOf(0) == (0, 0) && m.SpanOf(1) == (1, 1) && m.SpanOf(2) == (2, 3) && m.SpanOf(3) == (4, 4);
    hide Mapping.SpanOf;
  }

  lemma TangledBase(m: Mapping)
    requires HeightsReady(m) && m.RowsLaid() == ROW_D && HasNode(m.ir.nodes, "x") && HasNode(m.ir.nodes, "y")
    requires HasNode(m.ir.nodes, "z")
    requires m.TargetHeight("z") == 64 && m.TargetHeight("x") == 48 && m.TargetHeight("y") == 40
    ensures BaseHeights(m) == [64, 0, 48, 40, 0]
  {
    hide AllRows, Mapping.TargetHeight, Mapping.RowsLaid, HeightsReady;
  }

  lemma TangledHeights(m: Mapping)
    requires HeightsReady(m) && m.Triggers() == FOUR && forall s <- FOUR :: HasNode(m.ir.nodes, s)
    requires m.TriggerHeight("a") == m.TriggerHeight("b") == m.TriggerHeight("d") == 40
    ensures |TriggerHeights(m)| == 4 && TriggerHeights(m)[0] == TriggerHeights(m)[1] == TriggerHeights(m)[3] == 40
  {
    hide Mapping.TriggerHeight, Mapping.Triggers;
  }

  lemma MadeTriggers(fonts: Fonts, triggers: seq<string>, targets: seq<string>, edges: seq<FlowEdge>)
    requires Plain(triggers, targets, edges)
    ensures var nodes := Made(fonts, triggers, targets, edges).ir.nodes;
            forall k :: 0 <= k < |triggers| ==> HasNode(nodes, triggers[k]) && IndexOf(nodes, triggers[k]) == k
  {
    hide Plain, Column, IndexOf;
    MadeNodes(fonts, triggers, targets, edges);
    assert forall k :: 0 <= k < |triggers| ==> (triggers + targets)[k] == triggers[k];
  }

  lemma TangledTall(m: Mapping)
    requires Named(m) && Stacked(m)
    ensures HeightsReady(m) && RowHeights(m) == [64, 40, 48, 40, 40]
  {
    hide IsMapping, HeightsReady, TangledShape, Mapping.RowsLaid, Mapping.Triggers, Mapping.Targets, BaseHeights;
    hide Raised;
    hide TriggerHeights, Spans, Mapping.Gap, Mapping.Spacing;
    var hs, spans, ths := BaseHeights(m), Spans(m), TriggerHeights(m);
    assert SpansOk(spans, 5);
    RaisedExactly(hs, spans, ths, 4, 0);
    RaisedExactly(hs, spans, ths, 4, 1);
    RaisedExactly(hs, spans, ths, 4, 2);
    RaisedExactly(hs, spans, ths, 4, 3);
    RaisedExactly(hs, spans, ths, 4, 4);
    assert Alone(spans, 0, 0) && Alone(spans, 1, 1) && Alone(spans, 3, 4);
  }

  lemma Tops(hs: seq<int>)
    requires hs == [64, 40, 48, 40, 40]
    ensures RowTop(hs, 23, 0) == 44 && RowTop(hs, 23, 1) == 131 && RowTop(hs, 23, 2) == 194
    ensures RowTop(hs, 23, 3) == 265 && RowTop(hs, 23, 4) == 328
  {
    assert RowTop(hs, 23, 0) == 44;
    assert RowTop(hs, 23, 1) == 131;
    assert RowTop(hs, 23, 2) == 194;
  }

  lemma TangledOwn(m: Mapping, i: nat)
    requires Named(m) && Stacked(m) && i < 6
    ensures InOwnSpan(m, i) <==> i == 1 || i == 4 || i == 5
  {
    hide IsMapping, HeightsReady, Mapping.RowsLaid, Mapping.Triggers, Mapping.Targets, BaseHeights;
    hide TriggerHeights, Spans;
    hide Mapping.Gap, Mapping.Spacing, InOwnSpan, IndexOf, Mapping.SpanOf;
    var s := [3, 0, 1, 2, 2, 2][i];
    assert m.SpanOf(s) == Spans(m)[s] by { SpanAt(m, s); }
    OwnSpanIs(m, i, s);
  }

  /** Arrows 1, 4 and 5 run straight. */
  lemma TangledStraight(m: Mapping)
    requires Named(m) && Stacked(m)
    ensures forall i: nat :: i < 6 ==> (Straight(m, i) <==> i == 1 || i == 4 || i == 5)
  {
    hide IsMapping, HeightsReady, Mapping.RowsLaid, Mapping.Triggers, Mapping.Targets, Stacked, TangledShape;
    hide Mapping.Gap, Mapping.Spacing, InOwnSpan, Straight, IndexOf;
    assert |m.ir.edges| == 6 by { SixLong(m.ir.edges); }
    forall i: nat | i < 6 ensures InOwnSpan(m, i) <==> i == 1 || i == 4 || i == 5 {
      TangledOwn(m, i);
    }
    StraightOf(m);
  }

  lemma SixLong(edges: seq<FlowEdge>)
    requires TangledShape(edges)
    ensures |edges| == 6
  {
  }

  lemma SpanAt(m: Mapping, s: nat)
    requires m.Valid() && s < |m.Triggers()|
    ensures Spans(m)[s] == m.SpanOf(s)
  {
  }

  lemma StraightOf(m: Mapping)
    requires m.Valid() && TangledShape(m.ir.edges)
    requires forall i: nat :: i < 6 ==> (InOwnSpan(m, i) <==> i == 1 || i == 4 || i == 5)
    ensures forall i: nat :: i < 6 ==> (Straight(m, i) <==> i == 1 || i == 4 || i == 5)
  {
    hide IsMapping, Placers, InOwnSpan;
    PlacersPlace(m, 6);
  }

  /** Of two arrows into one target the one that comes first takes the higher slot. */
  lemma SlotBefore(m: Mapping, i: nat, j: nat)
    requires m.Valid() && i < |m.ir.edges| && j < |m.ir.edges| && m.ir.edges[i].to == m.ir.edges[j].to
    requires EntersBefore(m, i, j) && !EntersBefore(m, j, i)
    ensures SlotOf(m, i) < SlotOf(m, j)
  {
    hide IsMapping, EntersBefore, SortBy;
    var t := m.ir.edges[i].to;
    var le := (p: nat, q: nat) => EntersBefore(m, p, q);
    SlotsHeld(m, i);
    SlotsHeld(m, j);
    EntersOrder(m);
    SortOrders(le, Into(m.ir.edges, t));
    var order := SlotOrder(m, t);
    assert order[SlotOf(m, i)] == i && order[SlotOf(m, j)] == j;
  }

  lemma StraightBefore(m: Mapping, i: nat, j: nat)
    requires m.Valid() && i < |m.ir.edges| && j < |m.ir.edges| && m.ir.edges[i].to == m.ir.edges[j].to
    requires Straight(m, i) && !Straight(m, j)
    ensures SlotOf(m, i) < SlotOf(m, j)
  {
    hide IsMapping, Straight, Author, SlotOf;
    SlotBefore(m, i, j);
  }

  lemma BentBeforeBent(m: Mapping, i: nat, j: nat)
    requires m.Valid() && i < |m.ir.edges| && j < |m.ir.edges| && m.ir.edges[i].to == m.ir.edges[j].to
    requires !Straight(m, i) && !Straight(m, j) && Author(m, i) < Author(m, j)
    ensures SlotOf(m, i) < SlotOf(m, j)
  {
    hide IsMapping, Straight, Author, SlotOf;
    SlotBefore(m, i, j);
  }

  lemma AuthorIs(m: Mapping, i: nat, k: nat)
    requires Named(m) && i < 6 && k < 4 && m.ir.edges[i].from == FOUR[k]
    ensures Author(m, i) == k
  {
    hide IsMapping, Mapping.Triggers, Mapping.Targets, Mapping.Gap, Mapping.Spacing, IndexOf;
  }

  lemma TangledSlots(m: Mapping)
    requires Named(m) && Stacked(m)
    ensures SlotOf(m, 1) == 0 && SlotOf(m, 2) == 1 && SlotOf(m, 3) == 2 && SlotOf(m, 4) == 0 && SlotOf(m, 0) == 1
  {
    hide IsMapping, Mapping.Triggers, Mapping.Targets, Mapping.Gap, Mapping.Spacing, IndexOf, Straight, SlotOf, Author;
    hide Stacked;
    TangledStraight(m);
    AuthorIs(m, 2, 1);
    AuthorIs(m, 3, 2);
    StraightBefore(m, 1, 2);
    BentBeforeBent(m, 2, 3);
    StraightBefore(m, 4, 0);
    TangledInto(m.ir.edges);
  }

  /** An entry at its slot, from its target's row. */
  lemma EntryAt(m: Mapping, i: nat, r: nat, k: nat, h: int, top: int)
    requires m.Valid() && i < |m.ir.edges| && HeightsReady(m) && r < |RowHeights(m)| && RowHeights(m)[r] == h
    requires var t := m.ir.edges[i].to;
             HasNode(m.ir.nodes, t) && t in m.RowsLaid().rowOf && m.RowsLaid().rowOf[t] == r && m.TargetHeight(t) == h
    requires k == |Into(m.ir.edges, m.ir.edges[i].to)| && top == RowTop(RowHeights(m), m.Gap(), r)
    ensures Entry(m, i) == SlotHeight(Slab(top, h), k, m.Spacing(m.ir.edges[i].to), SlotOf(m, i))
  {
    hide IsMapping, AllRows, HeightsReady, RowHeights, Mapping.Gap, Mapping.TargetHeight, SlotOf, Mapping.Spacing;
    hide RowTop;
    hide SlotHeight;
  }

  /** The height of a target is its row's. */
  lemma HeightAt(m: Mapping, t: string, r: nat)
    requires m.Valid() && HeightsReady(m) && t in m.Targets() && t in m.RowsLaid().rowOf && m.RowsLaid().rowOf[t] == r
    ensures HasNode(m.ir.nodes, t) && r < |BaseHeights(m)| && m.TargetHeight(t) == BaseHeights(m)[r]
  {
    hide IsMapping, AllRows, Mapping.TargetHeight;
    RowsHoldTargets(m);
  }

  lemma TangledEnds(edges: seq<FlowEdge>)
    requires TangledShape(edges)
    ensures |edges| == 6 && edges[1].to == edges[2].to == edges[3].to == "z" && |Into(edges, "z")| == 3
    ensures edges[0].to == edges[4].to == "x" && |Into(edges, "x")| == 2 && edges[5].to == "y"
            && |Into(edges, "y")| == 1
  {
    hide Into;
    TangledInto(edges);
  }

  lemma IntoZ(m: Mapping)
    requires Named(m) && Stacked(m)
    ensures Entry(m, 1) == 60 && Entry(m, 2) == 76 && Entry(m, 3) == 92
  {
    hide IsMapping, Mapping.Triggers, Mapping.Targets, Mapping.Gap, Mapping.Spacing, IndexOf, Entry, SlotOf;
    hide HeightsReady;
    hide RowHeights, RowTop, BaseHeights, TriggerHeights, Spans, Mapping.TargetHeight, Mapping.RowsLaid, Author;
    hide TangledShape, Into;
    TangledTall(m);
    Tops(RowHeights(m));
    TangledSlots(m);
    TangledEnds(m.ir.edges);
    HeightAt(m, "z", 0);
    EntryAt(m, 1, 0, 3, 64, 44);
    EntryAt(m, 2, 0, 3, 64, 44);
    EntryAt(m, 3, 0, 3, 64, 44);
  }

  lemma IntoX(m: Mapping)
    requires Named(m) && Stacked(m)
    ensures Entry(m, 0) == 226 && Entry(m, 4) == 210
  {
    hide IsMapping, Mapping.Triggers, Mapping.Targets, Mapping.Gap, Mapping.Spacing, IndexOf, Entry, SlotOf;
    hide HeightsReady;
    hide RowHeights, RowTop, BaseHeights, TriggerHeights, Spans, Mapping.TargetHeight, Mapping.RowsLaid, Author;
    hide TangledShape, Into;
    TangledTall(m);
    Tops(RowHeights(m));
    TangledSlots(m);
    TangledEnds(m.ir.edges);
    HeightAt(m, "x", 2);
    EntryAt(m, 0, 2, 2, 48, 194);
    EntryAt(m, 4, 2, 2, 48, 194);
  }

  lemma IntoY(m: Mapping)
    requires Named(m) && Stacked(m)
    ensures Entry(m, 5) == 285
  {
    hide IsMapping, Mapping.Triggers, Mapping.Targets, Mapping.Gap, Mapping.Spacing, IndexOf, Entry, SlotOf;
    hide HeightsReady;
    hide RowHeights, RowTop, BaseHeights, TriggerHeights, Spans, Mapping.TargetHeight, Mapping.RowsLaid, Author;
    hide TangledShape, Into;
    TangledTall(m);
    Tops(RowHeights(m));
    TangledEnds(m.ir.edges);
    HeightAt(m, "y", 3);
    EntryAt(m, 5, 3, 1, 40, 265);
  }

  /** A trigger without a straight arrow has no level, one with a single one has that. */
  lemma NoLevel(m: Mapping, s: string)
    requires m.Valid() && forall i: nat :: i < |m.ir.edges| && m.ir.edges[i].from == s ==> !Straight(m, i)
    ensures Level(m, s) == None
  {
    hide IsMapping, Straight, FirstStraight;
    FirstStraightFirst(m, s, |m.ir.edges|);
  }

  lemma OneLevel(m: Mapping, s: string, p: nat)
    requires m.Valid() && p < |m.ir.edges| && Straight(m, p) && m.ir.edges[p].from == s
    requires forall i: nat :: i < |m.ir.edges| && m.ir.edges[i].from == s && Straight(m, i) ==> i == p
    ensures Level(m, s) == Some(Entry(m, p))
  {
    hide IsMapping, Straight, FirstStraight, Entry;
    FirstStraightFirst(m, s, |m.ir.edges|);
  }

  lemma TangledLevels(m: Mapping)
    requires Named(m) && Stacked(m)
    ensures |Levels(m)| == 4 && Levels(m)[0] == Some(60) && Levels(m)[1] == None && Levels(m)[3] == None
  {
    hide IsMapping, Mapping.Targets, Mapping.Gap, Mapping.Spacing, IndexOf, Straight, Entry, Level, Stacked;
    TangledStraight(m);
    IntoZ(m);
    OneLevel(m, "a", 1);
    NoLevel(m, "b");
    NoLevel(m, "d");
  }

  lemma FourSlabs(spans: seq<(nat, nat)>, ths: seq<int>, levels: seq<Option<int>>, hs: seq<int>)
    requires spans == [(0, 0), (1, 1), (2, 3), (4, 4)] && hs == [64, 40, 48, 40, 40] && SpansOk(spans, 5)
    requires |ths| == 4 && ths[0] == ths[1] == ths[3] == 40
    requires |levels| == 4 && levels[0] == Some(60) && levels[1] == None && levels[3] == None
    ensures Slabs(spans, ths, levels, hs, 23, 4) == [Slab(44, 40), Slab(104, 40), Slab(194, 111), Slab(325, 40)]
  {
    Tops(hs);
    hide RowTop;
    assert Slabs(spans, ths, levels, hs, 23, 0) == [];
    assert Slabs(spans, ths, levels, hs, 23, 1) == [Slab(44, 40)];
    assert Slabs(spans, ths, levels, hs, 23, 2) == [Slab(44, 40), Slab(104, 40)];
    assert Slabs(spans, ths, levels, hs, 23, 3) == [Slab(44, 40), Slab(104, 40), Slab(194, 111)];
  }

  lemma TangledTriggers(m: Mapping)
    requires Named(m) && Stacked(m)
    ensures TriggerSlabs(m) == [Slab(44, 40), Slab(104, 40), Slab(194, 111), Slab(325, 40)]
  {
    hide IsMapping, Mapping.Spacing, IndexOf, Levels, RowHeights, Slabs, HeightsReady, BaseHeights;
    hide TriggerHeights, Spans;
    hide Mapping.Triggers, Mapping.Targets, Mapping.Gap, Mapping.RowsLaid, TangledShape;
    TangledTall(m);
    TangledLevels(m);
    FourSlabs(Spans(m), TriggerHeights(m), Levels(m), RowHeights(m));
  }

  /** Straight arrows first, then the bent ones by their triggers. */
  lemma TangledOrder(m: Mapping)
    requires Named(m) && Stacked(m)
    ensures ExitOrder(m) == [1, 4, 5, 2, 3, 0]
  {
    hide IsMapping, Mapping.Triggers, Mapping.Targets, Mapping.Gap, Mapping.Spacing, IndexOf, Straight, Author, Stacked;
    hide StraightOnes, BentOnes, SortBy;
    TangledStraight(m);
    AuthorIs(m, 0, 3);
    AuthorIs(m, 2, 1);
    AuthorIs(m, 3, 2);
    OnesAre(m, [1, 4, 5], [0, 2, 3]);
    SortTurned((p: nat, q: nat) => BentBefore(m, p, q), 0, 2, 3);
  }

  lemma SortTurned<T>(le: (T, T) -> bool, a: T, b: T, c: T)
    requires !le(a, b) && !le(a, c) && le(b, c)
    ensures SortBy(le, [a, b, c]) == [b, c, a]
  {
    assert [a, b, c][..2] == [a, b] && [a, b][..1] == [a] && [a][..0] == [];
    assert SortBy(le, [a]) == InsertBy(le, SortBy(le, []), a) == [a];
    assert InsertBy(le, [], b) == [b] && InsertBy(le, [b], c) == [b, c] && [b, a][..1] == [b];
    assert SortBy(le, [a, b]) == InsertBy(le, [a], b) == [b, a];
    assert SortBy(le, [a, b, c]) == InsertBy(le, [b, a], c);
  }

  lemma TangledFrom(m: Mapping)
    requires Named(m)
    ensures |m.ir.edges| == 6 && m.ir.edges[0].from == "d" && m.ir.edges[1].from == "a" && m.ir.edges[2].from == "b"
    ensures m.ir.edges[3].from == m.ir.edges[4].from == m.ir.edges[5].from == "c"
    ensures m.Valid() && |m.Triggers()| == 4 && forall k: nat :: k < 4 ==> m.Triggers()[k] == FOUR[k]
  {
    hide IsMapping, Mapping.Triggers, Mapping.Targets, Mapping.Gap, Mapping.Spacing, IndexOf;
  }

  /** What trigger k's box makes of a bent arrow. */
  lemma BentLeaves(m: Mapping, taken: seq<nat>, i: nat, k: nat)
    requires m.Valid() && Arrows(m, taken) && i < |m.ir.edges| && !Straight(m, i)
    requires k < |m.Triggers()| && m.ir.edges[i].from == m.Triggers()[k]
    ensures ExitAfter(m, taken, i) == NearestExit(TriggerSlabs(m)[k], Entry(m, i), Exits(m, taken, m.ir.edges[i].from))
  {
    hide IsMapping, Straight, TriggerSlabs, Exits, Entry, NearestExit, Mapping.Triggers;
    TriggersDistinct(m, k);
  }

  lemma TangledFree()
    ensures NearestExit(Slab(104, 40), 76, []) == 114 && NearestExit(Slab(325, 40), 226, []) == 335
    ensures NearestExit(Slab(194, 111), 92, [210, 285]) == 226
  {
    NearestIs(Slab(104, 40), 76, [], 0);
    NearestIs(Slab(325, 40), 226, [], 0);
    var box := Slab(194, 111);
    forall j: nat | j < Tries(box)
      ensures Free(Try(box, j), [210, 285]) <==> Away(210, Try(box, j)) >= APART && Away(285, Try(box, j)) >= APART
    {
      FreeTwo(Try(box, j), 210, 285);
    }
    NearestIs(box, 92, [210, 285], 11);
  }

  /** The facts the exits are computed from. */
  ghost predicate Leaving(m: Mapping) {
    && m.Valid() && |m.ir.edges| == 6 && m.ir.edges[0].from == "d" && m.ir.edges[1].from == "a"
    && m.ir.edges[2].from == "b" && m.ir.edges[3].from == m.ir.edges[4].from == m.ir.edges[5].from == "c"
    && (forall i: nat :: i < 6 ==> (Straight(m, i) <==> i == 1 || i == 4 || i == 5))
    && Entry(m, 0) == 226 && Entry(m, 2) == 76 && Entry(m, 3) == 92 && Entry(m, 4) == 210 && Entry(m, 5) == 285
    && ExitOrder(m) == [1, 4, 5, 2, 3, 0]
    && m.Triggers() == FOUR && TriggerSlabs(m) == [Slab(44, 40), Slab(104, 40), Slab(194, 111), Slab(325, 40)]
  }

  lemma TangledLeaving(m: Mapping)
    requires Named(m) && Stacked(m)
    ensures Leaving(m)
  {
    hide IsMapping, Mapping.Triggers, Mapping.Targets, Mapping.Gap, Mapping.Spacing, IndexOf, Straight, Stacked;
    hide ExitOrder, Entry, TriggerSlabs, TangledShape;
    assert TangledShape(m.ir.edges);
    TangledFrom(m);
    TangledStraight(m);
    TangledOrder(m);
    IntoZ(m);
    IntoX(m);
    IntoY(m);
    TangledTriggers(m);
  }

  lemma ExitB(m: Mapping)
    requires Leaving(m)
    ensures Exit(m, 2) == 114
  {
    hide IsMapping, Mapping.Triggers, Straight, ExitOrder, Exits, ExitAfter, Entry, TriggerSlabs, NearestExit;
    TangledFree();
    NoExitsYet(m, [1, 4, 5], "b");
    ExitAt(m, 2);
    assert Position([1, 4, 5, 2, 3, 0], 2) == 3 && [1, 4, 5, 2, 3, 0][..3] == [1, 4, 5];
    BentLeaves(m, [1, 4, 5], 2, 1);
  }

  lemma ExitC(m: Mapping)
    requires Leaving(m)
    ensures Exit(m, 3) == 226
  {
    hide IsMapping, Mapping.Triggers, Straight, ExitOrder, Exits, ExitAfter, Entry, TriggerSlabs, NearestExit;
    TangledFree();
    TakenC(m);
    ExitAt(m, 3);
    assert Position([1, 4, 5, 2, 3, 0], 3) == 4 && [1, 4, 5, 2, 3, 0][..4] == [1, 4, 5, 2];
    BentLeaves(m, [1, 4, 5, 2], 3, 2);
  }

  lemma TakenC(m: Mapping)
    requires Leaving(m)
    ensures Arrows(m, [1, 4, 5, 2]) && Exits(m, [1, 4, 5, 2], "c") == [210, 285]
  {
    hide IsMapping, Mapping.Triggers, Straight, ExitOrder, Exits, ExitAfter, Entry, TriggerSlabs;
    NoExitsYet(m, [1], "c");
    StraightAfter(m, [1], 4);
    ExitsMore(m, [1], 4, "c", [], 210);
    StraightAfter(m, [1] + [4], 5);
    ExitsMore(m, [1] + [4], 5, "c", [] + [210], 285);
    OthersLeave(m, [1] + [4] + [5], 2, "c");
    assert [1] + [4] + [5] + [2] == [1, 4, 5, 2] && [] + [210] + [285] == [210, 285];
  }

  lemma ExitD(m: Mapping)
    requires Leaving(m)
    ensures Exit(m, 0) == 335
  {
    hide IsMapping, Mapping.Triggers, Straight, ExitOrder, Exits, ExitAfter, Entry, TriggerSlabs, NearestExit;
    TangledFree();
    NoExitsYet(m, [1, 4, 5, 2, 3], "d");
    ExitAt(m, 0);
    assert Position([1, 4, 5, 2, 3, 0], 0) == 5 && [1, 4, 5, 2, 3, 0][..5] == [1, 4, 5, 2, 3];
    BentLeaves(m, [1, 4, 5, 2, 3], 0, 3);
  }

  lemma OthersLeave(m: Mapping, taken: seq<nat>, i: nat, s: string)
    requires m.Valid() && Arrows(m, taken) && i < |m.ir.edges| && m.ir.edges[i].from != s
    ensures Arrows(m, taken + [i]) && Exits(m, taken + [i], s) == Exits(m, taken, s)
  {
    hide ExitAfter;
    assert (taken + [i])[..|taken|] == taken;
  }

  lemma TangledTurns(m: Mapping)
    requires Leaving(m)
    ensures TurnOrder(m) == [2, 3, 0] && (forall i: nat :: Turns(m, i) <==> i in [2, 3, 0])
    ensures TurnsOf(m, TurnOrder(m))
            == [MappingLanes.Turn(76, 114), MappingLanes.Turn(92, 226), MappingLanes.Turn(226, 335)]
  {
    hide IsMapping, Mapping.Triggers, Straight, ExitOrder, TriggerSlabs, Exit, Entry, SortBy, TurningOnes;
    ExitB(m);
    ExitC(m);
    ExitD(m);
    StraightExits(m, 1);
    StraightExits(m, 4);
    StraightExits(m, 5);
    assert TurningOnes(m) == [0, 2, 3] by { TurningAre(m, [0, 2, 3]); }
    SortTurned((p: nat, q: nat) => TurnBefore(m, p, q), 0, 2, 3);
  }

  lemma TurningAre(m: Mapping, turning: seq<nat>)
    requires m.Valid() && (forall j, k :: 0 <= j < k < |turning| ==> turning[j] < turning[k])
    requires forall i: nat :: i in turning <==> Turns(m, i)
    ensures TurningOnes(m) == turning
  {
    hide IsMapping, Exit, Entry;
    AscendingSame(TurningOnes(m), turning);
  }

  lemma TangledLanes(turns: seq<MappingLanes.Turn>)
    requires turns == [MappingLanes.Turn(76, 114), MappingLanes.Turn(92, 226), MappingLanes.Turn(226, 335)]
    ensures MappingLanes.LaneOf(turns, 1) == 1 && MappingLanes.LaneOf(turns, 2) == 0
  {
    assert turns[..1] == [turns[0]] && turns[..2] == [turns[0], turns[1]];
    assert [turns[0]][..0] == [] && [turns[0], turns[1]][..1] == [turns[0]];
    assert MappingLanes.Lanes([turns[0]]) == [[turns[0]]];
    assert MappingLanes.LaneFor([[turns[0]]], turns[1]) == 1;
    assert MappingLanes.Lanes([turns[0], turns[1]]) == [[turns[0]], [turns[1]]];
  }

  /** So arrow 3's way out lies on arrow 0's way in: they run on top of each other, though
      they share no attach point. */
  lemma TangledOverlaps(fonts: Fonts)
    ensures var m := Made(fonts, FOUR, THREE, Six()); m.Valid() && |m.ir.edges| == 6 && RunsOn(m, 3, 0)
  {
    hide IsMapping, Made, Six, Named, Stacked, RunsOn;
    var m := Made(fonts, FOUR, THREE, Six());
    TangledReady(fonts);
    TangledLeaving(m);
    LeavingOverlaps(m);
  }

  ghost predicate RunsOn(m: Mapping, i: nat, j: nat)
    requires m.Valid() && i < |m.ir.edges| && j < |m.ir.edges|
  {
    ExitOnEntry(m, i, j) && RoutesTogether(Route(m, i), Route(m, j)) && !EndsShared(Route(m, i), Route(m, j))
  }

  lemma LeavingOverlaps(m: Mapping)
    requires Leaving(m)
    ensures m.Valid() && |m.ir.edges| == 6 && RunsOn(m, 3, 0)
  {
    hide IsMapping, Mapping.Triggers, Straight, ExitOrder, TriggerSlabs, Exit, Entry, Route, TurnOrder, TurnsOf;
    hide MappingLanes.LaneOf;
    ExitC(m);
    ExitD(m);
    TangledTurns(m);
    TangledLanes(TurnsOf(m, TurnOrder(m)));
    assert Position([2, 3, 0], 3) == 1 && Position([2, 3, 0], 0) == 2;
    RoutesTogetherIff(m, 3, 0);
    EndsSharedIff(m, 3, 0);
  }
}
