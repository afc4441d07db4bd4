// A mapping two of whose arrows leave one trigger at one height, whatever the fonts.
module MappingCrowded {
  import opened Counting
  import opened Geometry
  import opened Sorting
  import opened Flow
  import opened FlowLabels
  import opened MappingRows
  import opened MappingColumns
  import opened MappingExits
  import opened FlowMapping
  import opened MappingArrows
  import opened MappingTriggers
  import opened MappingLayout
  import opened MappingTheorem
  import opened Routes
  import opened MappingPlain

  const TWO := ["a", "s"]
  const FIVE := ["t", "u", "v", "w", "x"]

  function Eight(): seq<FlowEdge> {
    [
      Arrow("a", "t"), Arrow("a", "u"), Arrow("a", "v"),
      Arrow("s", "w"), Arrow("s", "x"), Arrow("s", "t"), Arrow("s", "u"), Arrow("s", "v")
    ]
  }

  /** a reaches t, u and v; s reaches two more, and those three. */
  function Crowded(fonts: Fonts): Mapping {
    Made(fonts, TWO, FIVE, Eight())
  }

  lemma CrowdedPlain()
    ensures Plain(TWO, FIVE, Eight())
  {
    hide OneWord, Eight;
    CrowdedWords();
    CrowdedEnds();
    var edges := Eight();
    forall e | e in edges ensures e.from in TWO && e.to in FIVE && e.text == "" {
      var i :| 0 <= i < |edges| && edges[i] == e;
    }
  }

  lemma CrowdedWords()
    ensures forall id <- TWO + FIVE :: OneWord(id)
  {
  }

  lemma CrowdedEdges()
    ensures OutOf(Eight(), "a") == [0, 1, 2] && Reaches(Eight(), "a") == ["t", "u", "v"]
    ensures OutOf(Eight(), "s") == [3, 4, 5, 6, 7] && Reaches(Eight(), "s") == ["w", "x"] + ["t", "u", "v"]
    ensures Into(Eight(), "w") == [3] && Into(Eight(), "x") == [4]
  {
    CrowdedEnds();
    CrowdedOut(Eight());
    CrowdedInto(Eight());
  }

  predicate CrowdedShape(edges: seq<FlowEdge>) {
    && |edges| == 8
    && (forall i: nat :: i < 8 ==> edges[i].text == "" && edges[i].from == if i < 3 then "a" else "s")
    && (forall i: nat :: i < 8 ==> edges[i].to == ["t", "u", "v", "w", "x", "t", "u", "v"][i])
  }

  lemma CrowdedOut(edges: seq<FlowEdge>)
    requires CrowdedShape(edges)
    ensures OutOf(edges, "a") == [0, 1, 2] && Reaches(edges, "a") == ["t", "u", "v"]
    ensures OutOf(edges, "s") == [3, 4, 5, 6, 7] && Reaches(edges, "s") == ["w", "x"] + ["t", "u", "v"]
  {
    hide Reaches, OutOf;
    ReachesIs(edges, "a", [0, 1, 2], ["t", "u", "v"]);
    ReachesIs(edges, "s", [3, 4, 5, 6, 7], ["w", "x"] + ["t", "u", "v"]);
  }

  lemma CrowdedInto(edges: seq<FlowEdge>)
    requires CrowdedShape(edges)
    ensures Into(edges, "w") == [3] && Into(edges, "x") == [4]
  {
    hide Into;
    IntoIs(edges, "w", [3]);
    IntoIs(edges, "x", [4]);
  }

  lemma CrowdedEnds()
    ensures CrowdedShape(Eight())
  {
  }

  const FIRST_ROWS := Rows([Some("t"), Some("u"), Some("v")], map["t" := 0, "u" := 1, "v" := 2])
  const ALL_ROWS := Rows(FIRST_ROWS.targets + [Some("w"), Some("x")], FIRST_ROWS.rowOf["w" := 3]["x" := 4])

  lemma CrowdedRows()
    ensures TriggerRows(Eight(), TWO[..0]) == NO_ROWS && TriggerRows(Eight(), TWO[..1]) == FIRST_ROWS
    ensures TriggerRows(Eight(), TWO[..2]) == ALL_ROWS && AllRows(Eight(), TWO, FIVE) == ALL_ROWS
  {
    CrowdedEdges();
    hide Reaches, AddTargets;
    TriggerNext(Eight(), TWO, 0);
    TriggerNext(Eight(), TWO, 1);
    FirstRows();
    MoreRows();
    assert TWO[..2] == TWO;
    AddKnown(ALL_ROWS, FIVE);
  }

  lemma FirstRows()
    ensures AddTargets(NO_ROWS, ["t", "u", "v"]) == FIRST_ROWS
  {
    AddMore(NO_ROWS, ["t", "u"], "v");
    AddMore(NO_ROWS, ["t"], "u");
    AddMore(NO_ROWS, [], "t");
    assert ["t", "u"] + ["v"] == ["t", "u", "v"] && ["t"] + ["u"] == ["t", "u"] && [] + ["t"] == ["t"];
  }

  lemma MoreRows()
    ensures AddTargets(FIRST_ROWS, ["w", "x"] + ["t", "u", "v"]) == ALL_ROWS
  {
    var w, x := AddTarget(FIRST_ROWS, "w"), AddTarget(AddTarget(FIRST_ROWS, "w"), "x");
    AddJoins(FIRST_ROWS, ["w", "x"], ["t", "u", "v"]);
    AddMore(FIRST_ROWS, ["w"], "x");
    AddMore(FIRST_ROWS, [], "w");
    assert ["w"] + ["x"] == ["w", "x"] && [] + ["w"] == ["w"];
    assert AddTargets(FIRST_ROWS, []) == FIRST_ROWS;
    assert x.targets == ALL_ROWS.targets;
    assert x == ALL_ROWS;
    AddKnown(ALL_ROWS, ["t", "u", "v"]);
  }

  lemma CrowdedReady(fonts: Fonts)
    ensures var m := Crowded(fonts);
            && m.Valid() && m.Triggers() == TWO && m.Targets() == FIVE && m.RowsLaid() == ALL_ROWS
            && m.SpanOf(0) == (0, 2) && m.SpanOf(1) == (3, 4) && m.Gap() == 23 && (forall id :: m.Spacing(id) == 16)
            && HeightsReady(m) && m.TargetHeight("w") == 40 && m.TargetHeight("x") == 40
            && m.ir.edges == Eight() && CrowdedShape(m.ir.edges)
  {
    hide IsMapping, AllRows, TriggerRows, HeightsReady, Mapping.TargetHeight, Mapping.Gap, Mapping.Spacing, Eight;
    hide CrowdedShape;
    CrowdedPlain();
    MadeValid(fonts, TWO, FIVE, Eight());
    MadeSizes(fonts, TWO, FIVE, Eight());
    CrowdedRows();
    CrowdedEdges();
    CrowdedEnds();
    IsReady(Crowded(fonts));
  }

  lemma CrowdedFrom(fonts: Fonts)
    ensures var m := Crowded(fonts);
            && m.Valid() && |m.ir.edges| == 8 && m.Triggers() == TWO
            && forall i: nat :: i < 8 ==> m.ir.edges[i].from == if i < 3 then "a" else "s"
  {
    hide IsMapping, Crowded, Eight, HeightsReady, Mapping.Triggers, Mapping.Targets, Mapping.SpanOf, Mapping.RowsLaid;
    CrowdedReady(fonts);
  }

  lemma CrowdedTo(fonts: Fonts)
    ensures var m := Crowded(fonts);
            && m.Valid() && |m.ir.edges| == 8
            && forall i: nat, j: nat :: i < j < 5 ==> m.ir.edges[i].to != m.ir.edges[j].to
  {
    hide IsMapping, Crowded, Eight, HeightsReady, Mapping.Triggers, Mapping.Targets, Mapping.SpanOf, Mapping.RowsLaid;
    hide CrowdedShape;
    CrowdedReady(fonts);
    CrowdedOwn(Crowded(fonts).ir.edges);
  }

  lemma CrowdedHeights(fonts: Fonts)
    ensures HeightsReady(Crowded(fonts))
    ensures var hs := RowHeights(Crowded(fonts)); |hs| == 5 && hs[3] == 40 && hs[4] == 40
  {
    hide IsMapping, AllRows, HeightsReady, Mapping.TargetHeight, Crowded, Mapping.Gap, Mapping.Spacing, Raised;
    hide Mapping.RowsLaid, Mapping.Triggers, Mapping.Targets, Mapping.SpanOf;
    var m := Crowded(fonts);
    CrowdedReady(fonts);
    IsReady(m);
    RowsTall(m);
    assert HeightsReady(m) && SpansOk(Spans(m), 5) by { SpansReady(m); }
    forall k: nat | k == 3 || k == 4 ensures RowHeights(m)[k] == BaseHeights(m)[k] {
      RaisedExactly(BaseHeights(m), Spans(m), TriggerHeights(m), 2, k);
    }
  }

  lemma SpansReady(m: Mapping)
    requires HeightsReady(m)
    ensures SpansOk(Spans(m), |m.RowsLaid().targets|)
  {
  }

  /** s stands over its two rows. */
  lemma CrowdedSlab(fonts: Fonts) returns (y: int)
    ensures var m := Crowded(fonts);
            && m.Valid() && HeightsReady(m) && |RowHeights(m)| == 5 && y == RowTop(RowHeights(m), 23, 3)
            && |TriggerSlabs(m)| == 2 && TriggerSlabs(m)[1] == Slab(y, 103)
  {
    hide IsMapping, AllRows, HeightsReady, Mapping.TargetHeight, Crowded, Mapping.Spacing, RowHeights;
    hide TriggerSlabs, Level;
    hide Mapping.RowsLaid, Mapping.Targets, Mapping.TriggerHeight, Mapping.Triggers, Mapping.SpanOf, Mapping.Gap, Eight;
    hide CrowdedShape, RowTop, SlabOk;
    var m := Crowded(fonts);
    CrowdedReady(fonts);
    CrowdedHeights(fonts);
    TriggerPlaced(m, 1);
    assert HasNode(m.ir.nodes, m.Triggers()[1]) by { TriggerNode(m, 1); }
    TwoRows(TriggerSlabs(m)[1], m.SpanOf(1), m.TriggerHeight(m.Triggers()[1]), Level(m, m.Triggers()[1]), RowHeights(m),
            23);
    y := RowTop(RowHeights(m), 23, 3);
  }

  lemma TriggerNode(m: Mapping, s: nat)
    requires HeightsReady(m) && s < |m.Triggers()|
    ensures HasNode(m.ir.nodes, m.Triggers()[s])
  {
  }

  lemma TwoRows(box: Slab, span: (nat, nat), th: int, level: Option<int>, hs: seq<int>, gap: int)
    requires span == (3, 4) && |hs| == 5 && hs[3] == hs[4] == 40 && gap == 23
    requires SlabOk(box, span, th, level, hs, gap)
    ensures box == Slab(RowTop(hs, gap, 3), 103) && RowTop(hs, gap, 4) == RowTop(hs, gap, 3) + 63
  {
  }

  lemma CrowdedSpans(fonts: Fonts, i: nat)
    requires i < 8
    ensures var m := Crowded(fonts); m.Valid() && i < |m.ir.edges| && (InOwnSpan(m, i) <==> i < 5)
  {
    hide IsMapping, Crowded, InOwnSpan, Mapping.SpanOf, Mapping.RowsLaid, Mapping.Triggers, Mapping.Targets, Eight;
    hide HeightsReady;
    var m := Crowded(fonts);
    CrowdedReady(fonts);
    OwnSpanIs(m, i, if i < 3 then 0 else 1);
  }

  /** The first n arrows each reach a target of their own from their own span, no later one
      reaches its own: those n run straight. */
  lemma StraightAre(m: Mapping, n: nat)
    requires m.Valid() && n <= |m.ir.edges| && forall i: nat :: i < |m.ir.edges| ==> (InOwnSpan(m, i) <==> i < n)
    requires forall i: nat, j: nat :: i < j < n ==> m.ir.edges[i].to != m.ir.edges[j].to
    ensures forall i: nat :: i < |m.ir.edges| ==> (Straight(m, i) <==> i < n)
  {
    hide IsMapping, Placers, InOwnSpan;
    PlacersPlace(m, |m.ir.edges|);
  }

  lemma CrowdedStraight(fonts: Fonts)
    ensures var m := Crowded(fonts);
            m.Valid() && |m.ir.edges| == 8 && forall i: nat :: i < 8 ==> (Straight(m, i) <==> i < 5)
  {
    hide IsMapping, InOwnSpan, Straight, Crowded, Eight, Mapping.SpanOf, Mapping.RowsLaid, Mapping.Triggers;
    hide Mapping.Targets, HeightsReady;
    var m := Crowded(fonts);
    CrowdedTo(fonts);
    forall i: nat | i < 8 ensures InOwnSpan(m, i) <==> i < 5 {
      CrowdedSpans(fonts, i);
    }
    StraightAre(m, 5);
  }

  /** An arrow alone at its target enters at its middle. */
  lemma EntryAlone(m: Mapping, i: nat, r: nat)
    requires m.Valid() && i < |m.ir.edges| && HeightsReady(m) && |Into(m.ir.edges, m.ir.edges[i].to)| == 1
    requires var t := m.ir.edges[i].to;
             HasNode(m.ir.nodes, t) && m.TargetHeight(t) == 40 && t in m.RowsLaid().rowOf && m.RowsLaid().rowOf[t] == r
    requires r < |RowHeights(m)| && RowHeights(m)[r] == 40
    ensures Entry(m, i) == RowTop(RowHeights(m), m.Gap(), r) + 20
  {
    hide IsMapping, AllRows, HeightsReady, RowHeights, Mapping.Gap, Mapping.TargetHeight, SlotOf, Mapping.Spacing;
    hide RowTop;
  }

  /** One whose target stands in an earlier row enters above a row's top. */
  lemma EntryAbove(m: Mapping, i: nat, r: nat)
    requires m.Valid() && i < |m.ir.edges| && HeightsReady(m) && m.ir.edges[i].to in m.RowsLaid().rowOf
    requires m.RowsLaid().rowOf[m.ir.edges[i].to] < r < |RowHeights(m)|
    ensures Entry(m, i) <= RowTop(RowHeights(m), m.Gap(), r)
  {
    hide IsMapping, AllRows, HeightsReady, RowHeights, Mapping.Gap, Mapping.TargetHeight, Entry, RowTop, TargetSlab;
    EntryWithin(m, i);
    EdgeEnds(m, i);
    TargetSlabRow(m, m.ir.edges[i].to);
    RowsTall(m);
    RowsDescend(RowHeights(m), m.Gap(), m.RowsLaid().rowOf[m.ir.edges[i].to], r);
  }

  lemma CrowdedEntries(fonts: Fonts, y: int)
    requires HeightsReady(Crowded(fonts)) && |RowHeights(Crowded(fonts))| == 5
    requires y == RowTop(RowHeights(Crowded(fonts)), 23, 3)
    ensures var m := Crowded(fonts);
            && m.Valid() && |m.ir.edges| == 8 && Entry(m, 3) == y + 20 && Entry(m, 4) == y + 83
            && forall i: nat :: 5 <= i < 8 ==> Entry(m, i) <= y
  {
    hide IsMapping, HeightsReady, RowHeights, Entry, Crowded, Eight, Mapping.Gap, Mapping.TargetHeight;
    hide Mapping.RowsLaid;
    hide Mapping.Triggers, Mapping.Targets, Mapping.SpanOf, RowTop;
    var m := Crowded(fonts);
    CrowdedReady(fonts);
    CrowdedHeights(fonts);
    CrowdedAlone(fonts, y);
    forall i: nat | 5 <= i < 8 ensures Entry(m, i) <= y {
      EntryAbove(m, i, 3);
    }
  }

  lemma CrowdedAlone(fonts: Fonts, y: int)
    requires HeightsReady(Crowded(fonts)) && |RowHeights(Crowded(fonts))| == 5
    requires y == RowTop(RowHeights(Crowded(fonts)), 23, 3)
    ensures var m := Crowded(fonts);
            m.Valid() && |m.ir.edges| == 8 && Entry(m, 3) == y + 20 && Entry(m, 4) == y + 83
  {
    hide IsMapping, HeightsReady, RowHeights, Entry, Crowded, Eight, Mapping.Gap, Mapping.TargetHeight;
    hide Mapping.RowsLaid;
    hide Mapping.Triggers, Mapping.Targets, Mapping.SpanOf, RowTop;
    var m := Crowded(fonts);
    CrowdedReady(fonts);
    CrowdedHeights(fonts);
    CrowdedInto(m.ir.edges);
    assert RowTop(RowHeights(m), 23, 4) == y + 63 by { NextTop(RowHeights(m)); }
    assert HasNode(m.ir.nodes, "w") && HasNode(m.ir.nodes, "x") by { TargetNodes(m); }
    hide CrowdedShape;
    assert m.ir.edges[3].to == "w" && m.ir.edges[4].to == "x" by { CrowdedOwn(m.ir.edges); }
    EntryAlone(m, 3, 3);
    EntryAlone(m, 4, 4);
  }

  lemma CrowdedOwn(edges: seq<FlowEdge>)
    requires CrowdedShape(edges)
    ensures |edges| == 8 && edges[3].to == "w" && edges[4].to == "x"
    ensures forall i: nat, j: nat :: i < j < 5 ==> edges[i].to != edges[j].to
  {
  }

  lemma NextTop(hs: seq<int>)
    requires |hs| == 5 && hs[3] == 40
    ensures RowTop(hs, 23, 4) == RowTop(hs, 23, 3) + 63
  {
  }

  lemma TargetNodes(m: Mapping)
    requires HeightsReady(m)
    ensures forall t <- m.Targets() :: HasNode(m.ir.nodes, t)
  {
  }

  /** Straight arrows first, then the bent ones: here as written. */
  lemma CrowdedOrder(fonts: Fonts)
    ensures var m := Crowded(fonts); m.Valid() && ExitOrder(m) == [0, 1, 2, 3, 4, 5, 6, 7]
  {
    hide IsMapping, Crowded, Eight, Straight, Mapping.Triggers, Mapping.Targets, Mapping.SpanOf, HeightsReady, SortBy;
    hide StraightOnes, BentOnes, BentBefore, Mapping.RowsLaid;
    var m := Crowded(fonts);
    CrowdedFrom(fonts);
    CrowdedStraight(fonts);
    OnesAre(m, [0, 1, 2, 3, 4], [5, 6, 7]);
    BentInOrder(m, 5, 6);
    BentInOrder(m, 6, 7);
    SortThree((p: nat, q: nat) => BentBefore(m, p, q), 5, 6, 7);
  }

  lemma BentInOrder(m: Mapping, i: nat, j: nat)
    requires m.Valid() && i < j < |m.ir.edges| && m.ir.edges[i].from == m.ir.edges[j].from
    ensures BentBefore(m, i, j)
  {
    hide IsMapping, Author;
    SameAuthor(m, i, j);
  }

  lemma SameAuthor(m: Mapping, i: nat, j: nat)
    requires m.Valid() && i < |m.ir.edges| && j < |m.ir.edges| && m.ir.edges[i].from == m.ir.edges[j].from
    ensures Author(m, i) == Author(m, j)
  {
  }

  lemma SortThree<T>(le: (T, T) -> bool, a: T, b: T, c: T)
    requires le(a, b) && le(b, c)
    ensures SortBy(le, [a, b, c]) == [a, b, c]
  {
    assert [a, b, c][..2] == [a, b] && [a, b][..1] == [a] && [a][..0] == [];
    assert SortBy(le, [a]) == InsertBy(le, SortBy(le, []), a) == [a];
    assert SortBy(le, [a, b]) == InsertBy(le, [a], b) == [a, b];
    assert SortBy(le, [a, b, c]) == InsertBy(le, [a, b], c);
  }

  /** The second and third arrow of s to targets above leave at one height. */
  lemma CrowdedExits(fonts: Fonts)
    ensures var m := Crowded(fonts); m.Valid() && |m.ir.edges| == 8 && Exit(m, 6) == Exit(m, 7)
  {
    hide IsMapping, Crowded, Eight, Straight, Mapping.Triggers, Mapping.Targets, Mapping.SpanOf, HeightsReady, Entry;
    hide TriggerSlabs, RowHeights, ExitOrder, Exits, NearestExit, Mapping.RowsLaid, ExitAfter;
    var m := Crowded(fonts);
    CrowdedFrom(fonts);
    CrowdedStraight(fonts);
    CrowdedOrder(fonts);
    var y := CrowdedSlab(fonts);
    CrowdedEntries(fonts, y);
    CrowdedExit(y, Entry(m, 5), Entry(m, 6), Entry(m, 7));
    var straight := [y + 20, y + 83];
    NoExitsYet(m, [0, 1, 2], "s");
    StraightAfter(m, [0, 1, 2], 3);
    ExitsMore(m, [0, 1, 2], 3, "s", [], y + 20);
    StraightAfter(m, [0, 1, 2] + [3], 4);
    ExitsMore(m, [0, 1, 2] + [3], 4, "s", [] + [y + 20], y + 83);
    var taken := [0, 1, 2] + [3] + [4];
    assert [] + [y + 20] + [y + 83] == straight;
    BentAfter(m, taken, 5, y, straight);
    ExitsMore(m, taken, 5, "s", straight, y + 36);
    BentAfter(m, taken + [5], 6, y, straight + [y + 36]);
    ExitsMore(m, taken + [5], 6, "s", straight + [y + 36], y + 52);
    BentAfter(m, taken + [5] + [6], 7, y, straight + [y + 36] + [y + 52]);
    ExitAt(m, 6);
    ExitAt(m, 7);
    assert ExitOrder(m)[..6] == taken + [5] && ExitOrder(m)[..7] == taken + [5] + [6];
    assert Position(ExitOrder(m), 6) == 6 && Position(ExitOrder(m), 7) == 7;
  }

  lemma BentAfter(m: Mapping, taken: seq<nat>, i: nat, y: int, exits: seq<int>)
    requires m.Valid() && Arrows(m, taken) && i < |m.ir.edges| && !Straight(m, i)
    requires |m.Triggers()| == 2 && m.Triggers() == TWO && m.ir.edges[i].from == "s"
             && TriggerSlabs(m)[1] == Slab(y, 103)
    requires Exits(m, taken, "s") == exits
    ensures ExitAfter(m, taken, i) == NearestExit(Slab(y, 103), Entry(m, i), exits)
  {
    hide IsMapping, Straight, TriggerSlabs, Exits, Entry, NearestExit, Mapping.Triggers;
    TriggersDistinct(m, 1);
  }

  /** So in a mapping two arrows do share an attach point, and run on top of each other. */
  lemma CrowdedShare(fonts: Fonts)
    ensures var m := Crowded(fonts);
            && m.Valid() && |m.ir.edges| == 8
            && EndsShared(Route(m, 6), Route(m, 7)) && RoutesTogether(Route(m, 6), Route(m, 7))
  {
    hide IsMapping, Crowded, Exit, Route, ExitOnEntry, Crowds;
    CrowdedExits(fonts);
    ExitsEqualIff(Crowded(fonts), 6, 7);
    EndsSharedIff(Crowded(fonts), 6, 7);
    RoutesTogetherIff(Crowded(fonts), 6, 7);
  }
}
