// A mapping whose trigger, over two rows, has a label its box does not hold, whatever the fonts
// (layoutMapping, ui/src/diagramLayout.ts).
module MappingTall {
  import opened Text
  import opened Geometry
  import opened DiagramTheme
  import opened Flow
  import opened FlowLabels
  import opened FlowSizes
  import opened MappingRows
  import opened FlowMapping
  import opened MappingLayout
  import opened MappingDrawing
  import opened MappingReads
  import opened MappingPlain

  const TEN := ["x", "x", "x", "x", "x", "x", "x", "x", "x", "x"]

  /** Ten lines of one letter. */
  function TenLines(): string {
    Join(TEN, "\n")
  }

  function Nodes(): seq<FlowNode> {
    [
      FlowNode("s", TenLines(), Flow.Step, Some("l")), FlowNode("t", "t", Flow.Step, Some("r")),
      FlowNode("u", "u", Flow.Step, Some("r"))
    ]
  }

  function Both(): seq<FlowEdge> {
    [Arrow("s", "t"), Arrow("s", "u")]
  }

  /** s, its label ten lines, to t and to u. */
  function Tall(fonts: Fonts): Mapping {
    Mapping(fonts, FlowIR(LeftRight, Nodes(), Both(), [Zone("l", "l"), Zone("r", "r")]))
  }

  lemma NodesAre()
    ensures DistinctIds(Nodes()) && HasNode(Nodes(), "s") && HasNode(Nodes(), "t") && HasNode(Nodes(), "u")
    ensures IndexOf(Nodes(), "s") == 0 && IndexOf(Nodes(), "t") == 1 && IndexOf(Nodes(), "u") == 2
  {
    hide TenLines;
    var n := Nodes();
    assert n[0].id == "s" && n[1].id == "t" && n[2].id == "u";
    IndexUnique(n, 0);
    IndexUnique(n, 1);
    IndexUnique(n, 2);
  }

  lemma ZonesAre()
    ensures InZone(Nodes(), "l") == ["s"] && InZone(Nodes(), "r") == ["t", "u"]
  {
    hide TenLines;
    var n := Nodes();
    assert n[..2] == [n[0], n[1]] && n[..2][..1] == [n[0]] && n[..2][..1][..0] == [];
    assert InZone(n[..2][..1], "l") == ["s"] && InZone(n[..2][..1], "r") == [];
    assert InZone(n[..2], "l") == ["s"] && InZone(n[..2], "r") == ["t"];
  }

  lemma TallValid(fonts: Fonts)
    ensures Tall(fonts).Valid() && Tall(fonts).Triggers() == ["s"] && Tall(fonts).Targets() == ["t", "u"]
  {
    hide TenLines, IndexOf, HasNode, InZone, DistinctIds;
    NodesAre();
    ZonesAre();
  }

  lemma TallOut()
    ensures OutOf(Both(), "s") == [0, 1] && Reaches(Both(), "s") == ["t", "u"]
    ensures Into(Both(), "t") == [0] && Into(Both(), "u") == [1]
  {
    hide OutOf, Reaches, Into;
    ReachesIs(Both(), "s", [0, 1], ["t", "u"]);
    IntoIs(Both(), "t", [0]);
    IntoIs(Both(), "u", [1]);
  }

  const TWO_ROWS := Rows([Some("t"), Some("u")], map["t" := 0, "u" := 1])

  lemma RowsAdded()
    ensures AddTargets(NO_ROWS, ["t", "u"]) == TWO_ROWS
  {
    AddMore(NO_ROWS, ["t"], "u");
    AddMore(NO_ROWS, [], "t");
    assert ["t"] + ["u"] == ["t", "u"] && [] + ["t"] == ["t"];
  }

  lemma AllRowsAre()
    ensures AllRows(Both(), ["s"], ["t", "u"]) == TWO_ROWS && Span(Both(), ["s"], 0) == (0, 1)
  {
    hide Reaches, AddTargets;
    TallOut();
    RowsAdded();
    TriggerNext(Both(), ["s"], 0);
    assert ["s"][..0] == [] && ["s"][..1] == ["s"];
    assert TriggerRows(Both(), ["s"]) == TWO_ROWS;
    AddKnown(TWO_ROWS, ["t", "u"]);
  }

  lemma TallRows(fonts: Fonts)
    ensures var m := Tall(fonts);
            && m.Valid() && |m.Triggers()| == 1 && m.SpanOf(0) == (0, 1)
            && m.RowsLaid().targets == [Some("t"), Some("u")]
  {
    hide IsMapping, AllRows, Span, Nodes, Mapping.Triggers, Mapping.Targets;
    TallValid(fonts);
    AllRowsAre();
  }

  lemma TallTexts(fonts: Fonts)
    ensures var m := Tall(fonts);
            && m.Valid() && |m.Triggers()| == 1 && |m.Targets()| == 2 && NodeOf(m, Trigger(0)).text == TenLines()
            && NodeOf(m, Target(0)).text == "t" && NodeOf(m, Target(1)).text == "u"
  {
    hide IsMapping, TenLines, IndexOf, InZone;
    TallValid(fonts);
    NodesAre();
  }

  lemma TallLines(fonts: Fonts)
    ensures var m := Tall(fonts);
            && m.Valid() && |m.Triggers()| == 1 && |m.Targets()| == 2
            && |LabelLines(m, Trigger(0))| >= 10
            && |LabelLines(m, Target(0))| == 1 && |LabelLines(m, Target(1))| == 1
  {
    hide IsMapping, MarkBox, SetLines, Tall, NodeOf, Mapping.Triggers, Mapping.Targets;
    TallTexts(fonts);
    var m := Tall(fonts);
    TenParas(m.fonts, NodeOf(m, Trigger(0)), MarkBox(m, Trigger(0)).w - 32.0);
    LetterStays(m.fonts, NodeOf(m, Target(0)), MarkBox(m, Target(0)).w - 32.0);
    LetterStays(m.fonts, NodeOf(m, Target(1)), MarkBox(m, Target(1)).w - 32.0);
  }

  lemma TenParas(fonts: Fonts, n: FlowNode, room: real)
    requires n.text == TenLines()
    ensures |SetLines(fonts, n, room)| >= 10
  {
    SplitJoin(TEN, '\n');
    hide WrapAll, Join;
  }

  lemma LetterStays(fonts: Fonts, n: FlowNode, room: real)
    requires OneWord(n.text)
    ensures |SetLines(fonts, n, room)| == 1
  {
    hide Wrapped, OneWord;
    WordStays(fonts.adv, n.text, room, RAMP_CODE, Mono);
    WordStays(fonts.adv, n.text, room, RAMP_BOLD, Sans);
    WordStays(fonts.adv, n.text, room, RAMP_TEXT, Sans);
  }

  /** The box of s is 103 tall and its label takes 202 or more. */
  lemma TallOverflows(fonts: Fonts)
    ensures var m := Tall(fonts);
            && m.Valid() && HasMark(m, Trigger(0)) && |LabelLines(m, Trigger(0))| >= 10
            && MarkBox(m, Trigger(0)).h == 103.0
            && MarkBox(m, Trigger(0)).h < (40 + 18 * (|LabelLines(m, Trigger(0))| - 1)) as real
  {
    hide IsMapping, Tall, MarkSlab, Mapping.Width, TargetX, LabelLines, Mapping.RowsLaid, Mapping.Triggers;
    hide Mapping.Targets;
    hide Mapping.SpanOf, Mapping.Gap, OwnRoom, NeedOf;
    var m := Tall(fonts);
    TallRows(fonts);
    TallLines(fonts);
    SeveralRowsTall(m, 0);
    assert m.Gap() == 23 by { TallGap(fonts); }
    TallNeeds(fonts);
    OwnRoomTwo(m);
  }

  lemma OwnRoomTwo(m: Mapping)
    requires m.Valid() && |m.Triggers()| == 1 && m.SpanOf(0) == (0, 1) && |m.Targets()| == 2
    requires NeedOf(m, 0) == 40 && NeedOf(m, 1) == 40 && m.Gap() == 23
    ensures OwnRoom(m, 0, 1) == 103
  {
    hide IsMapping, NeedOf, Mapping.Gap, Mapping.RowsLaid, Mapping.Triggers, Mapping.Targets, Mapping.SpanOf;
    assert OwnRoom(m, 0, 0) == 40;
  }

  lemma TallGap(fonts: Fonts)
    ensures Tall(fonts).Gap() == 23
  {
    BareLabels(fonts, Both());
  }

  lemma TallNeeds(fonts: Fonts)
    ensures var m := Tall(fonts); m.Valid() && |m.Targets()| == 2 && NeedOf(m, 0) == 40 && NeedOf(m, 1) == 40
  {
    hide IsMapping, LabelLines, Nodes, Into;
    TallValid(fonts);
    TallLines(fonts);
    TallOut();
  }
}
