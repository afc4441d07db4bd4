// A flow layoutSpine draws badly (ui/src/diagramLayout.ts): the label of a step between a dot
// and an empty choice lies over the node beside the choice, and over the label leading there.
module SpineDots {
  import opened Geometry
  import opened Text
  import opened DiagramTheme
  import opened Flow
  import opened FlowLabels
  import opened SpinePath
  import opened SpineSizes
  import opened SpineRows
  import opened SpineLabels
  import opened SpineDrawn
  import opened SpineLayout
  import opened SpineLooks
  import opened SpinePlacing
  import opened SpineTheorem
  import opened SpineSmall
  import SpineShape
  import SpineLanes
  import Counting

  // ---- the flow ----

  const STEP := "xxxxxxxxxxxxxxxx"
  const ASIDE := "a\na"
  const FOUR := "b\nb\nb\nb"

  function Edges(): seq<FlowEdge> {
    [
      FlowEdge("s", "c", STEP, false, HeadAtEnd), FlowEdge("c", "t", "", false, HeadAtEnd),
      FlowEdge("c", "b", ASIDE, false, HeadAtEnd)
    ]
  }

  function Nodes(): seq<FlowNode> {
    [
      FlowNode("s", "", Flow.Start, None), FlowNode("c", "", Flow.Decision, None),
      FlowNode("t", "", Flow.Stop, None), FlowNode("b", FOUR, Flow.Step, None)
    ]
  }

  /** A start to an empty choice to a stop; from the choice also to a node of four lines. */
  function Choosing(): FlowIR {
    FlowIR(TopDown, Nodes(), Edges(), [])
  }

  const PATH := ["s", "c", "t"]
  const IDS := {"s", "c", "t", "b"}
  const CHAIN := SpineShape.Chain([2], ["b"])
  const AT_START := SpineShape.Shape(map[], {"s", "c", "t"}, [], map[])
  const AT_CHOICE := SpineShape.Shape(map[], {"s", "c", "t"}, [], map["s" := 0])
  const STEPPED := SpineShape.Shape(map[], {"s", "c", "t"}, [], map["s" := 0, "c" := 1])
  const SHAPE := SpineShape.Shape(map["c" := CHAIN], IDS, [], map["s" := 0, "c" := 1])

  function FoundIt(): Found {
    Found(GraphOf(Choosing()), PATH, SHAPE)
  }

  predicate Shaped(edges: seq<FlowEdge>) {
    && |edges| == 3
    && (forall i: nat :: i < 3 ==> edges[i].from == ["s", "c", "c"][i] && edges[i].to == ["c", "t", "b"][i])
  }

  lemma EdgesShaped()
    ensures Shaped(Edges())
  {
    hide STEP, ASIDE;
  }

  /** What the graph of the flow is. */
  ghost predicate Ways(g: Graph) {
    && g.Valid() && Shaped(g.edges) && g.nodes == IDS
    && OutOf(g.edges, "s") == [0] && OutOf(g.edges, "c") == [1, 2] && OutOf(g.edges, "t") == []
    && OutOf(g.edges, "b") == [] && Into(g.edges, "s") == [] && Into(g.edges, "b") == [2]
  }

  lemma EndsAre(edges: seq<FlowEdge>)
    requires Shaped(edges)
    ensures OutOf(edges, "s") == [0] && OutOf(edges, "c") == [1, 2] && OutOf(edges, "t") == []
    ensures OutOf(edges, "b") == [] && Into(edges, "s") == [] && Into(edges, "b") == [2]
  {
    hide OutOf, Into;
    OutIs(edges, "s", [0]);
    OutIs(edges, "c", [1, 2]);
    OutIs(edges, "t", []);
    OutIs(edges, "b", []);
    IntoIs(edges, "s", []);
    IntoIs(edges, "b", [2]);
  }

  lemma GraphIs()
    ensures Ways(GraphOf(Choosing()))
  {
    hide OutOf, Into, Edges;
    EdgesShaped();
    EndsAre(Edges());
    IdsAre();
    var g := GraphOf(Choosing());
    forall e | e in g.edges ensures e.from in g.nodes && e.to in g.nodes {
      var i :| 0 <= i < |g.edges| && g.edges[i] == e;
    }
  }

  lemma IdsAre()
    ensures GraphOf(Choosing()).nodes == IDS
  {
    var g, n := GraphOf(Choosing()), Nodes();
    forall k | 0 <= k < |n| ensures n[k].id in g.nodes {
      assert n[k] in n;
    }
    assert n[0].id in g.nodes && n[1].id in g.nodes && n[2].id in g.nodes && n[3].id in g.nodes;
    forall id | id in g.nodes ensures id in IDS {
      var x :| x in n && x.id == id;
    }
  }

  lemma PathIs(g: Graph)
    requires Ways(g)
    ensures LongestFrom(g, "s", {}) == PATH
  {
    hide OutOf, Into, LongestFrom;
    LongestEnd(g, "t", {"s", "c"});
    LongestEnd(g, "b", {"s", "c"});
    assert {"s"} + {"c"} == {"s", "c"} && {} + {"s"} == {"s"};
    LongestFirst(g, "c", {"s"}, "t", "b");
    LongestOn(g, "s", {}, "c");
  }

  lemma ClassesAre(g: Graph)
    requires Ways(g)
    ensures SpineShape.Classify(g, PATH, AT_START, 0, 0) == Some(AT_CHOICE)
    ensures SpineShape.Classify(g, PATH, AT_CHOICE, 1, 0) == Some(STEPPED)
    ensures SpineShape.Classify(g, PATH, STEPPED, 1, 1) == Some(SHAPE)
  {
    hide OutOf, Into;
    assert Next(g, "s", 0) == "c" && Next(g, "c", 0) == "t" && Next(g, "c", 1) == "b";
    assert SpineShape.LastOf(CHAIN) == "b" && {"s", "c", "t"} + {"b"} == IDS;
    assert SpineShape.WalkChain(g, PATH, STEPPED.placed, CHAIN) == Some((CHAIN, IDS));
  }

  lemma ShapeIs(g: Graph)
    requires Ways(g)
    ensures SpineShape.ShapeOf(g, PATH) == Some(SHAPE)
  {
    hide OutOf, Into, SpineShape.Classify, Shaped;
    ClassesAre(g);
    assert Counting.Elements(PATH) == {"s", "c", "t"};
    assert SpineShape.ShapeAfter(g, PATH, 0, 0) == Some(AT_START);
    assert SpineShape.ShapeAfter(g, PATH, 0, 1) == Some(AT_CHOICE);
    assert SpineShape.ShapeAfter(g, PATH, 1, 0) == Some(AT_CHOICE);
    assert SpineShape.ShapeAfter(g, PATH, 1, 1) == Some(STEPPED);
    assert SpineShape.ShapeAfter(g, PATH, 1, 2) == Some(SHAPE);
    assert SpineShape.ShapeAfter(g, PATH, 2, 0) == Some(SHAPE);
    assert SpineShape.ShapeAfter(g, PATH, 3, 0) == Some(SHAPE);
    assert |IDS| == 4;
  }

  /** layoutSpine takes this flow. */
  lemma SpineIs()
    ensures IrOk(Choosing()) && Spine(Choosing()) == Some(FoundIt()) && Ready(FoundIt()) && Known(FoundIt())
  {
    hide OutOf, Into, LongestFrom, SpineShape.ShapeOf, Edges;
    GraphIs();
    var g := GraphOf(Choosing());
    PathIs(g);
    ShapeIs(g);
    assert StartOf(Nodes(), Edges()) == Some("s");
    forall e | e in g.edges ensures e.from != e.to {
      var i :| 0 <= i < |g.edges| && g.edges[i] == e;
    }
    SpineWith(Choosing(), PATH, SHAPE);
  }

  // ---- its boxes and labels ----

  lemma StepIs(fonts: Fonts)
    requires Budgeted(fonts)
    ensures LabelBox(fonts, STEP) == LabelSize([STEP], 111, 15)
  {
    hide Em, Wrapped, Budgeted, TextWidth, STEP, AllLow, OneWord, WidestRun;
    StepLow();
    StepWide(fonts);
    WordStays(fonts.adv, STEP, LABEL_MAX, RAMP_LABEL, Mono);
    OneRun(fonts.adv, STEP, RAMP_LABEL, Mono);
  }

  lemma StepLow()
    ensures AllLow(STEP) && |STEP| == 16 && OneWord(STEP)
  {
  }

  lemma StepWide(fonts: Fonts)
    requires Budgeted(fonts)
    ensures TextWidth(fonts.adv, STEP, RAMP_LABEL, Mono) == 110.4
  {
    hide Em, Budgeted, STEP, AllLow;
    StepLow();
    LowEm(fonts, STEP, Mono);
  }

  lemma OneRun(adv: Advance, s: string, size: Size, face: Face)
    ensures WidestRun(adv, [s], size, face) == TextWidth(adv, s, size, face)
  {
    assert [s][1..] == [] && WidestRun(adv, [], size, face) == 0.0;
  }

  /** Lines of one letter each, kept as they are. */
  lemma {:induction false} LettersStay(adv: Advance, paras: seq<string>, room: real, size: Size, face: Face)
    requires forall i :: 0 <= i < |paras| ==> |paras[i]| == 1 && OneWord(paras[i])
    ensures WrapAll(adv, paras, room, size, face) == paras
  {
    hide OneWord, WrapParagraph;
    if paras != [] {
      LettersStay(adv, paras[1..], room, size, face);
      WordStays(adv, paras[0], room, size, face);
      assert WrapParagraph(adv, paras[0], room, size, face) == [paras[0]]
      by { OneLine(adv, paras[0], room, size, face); }
      assert [paras[0]] + paras[1..] == paras;
    }
  }

  lemma OneLine(adv: Advance, text: string, room: real, size: Size, face: Face)
    requires OneWord(text)
    ensures WrapParagraph(adv, text, room, size, face) == [text]
  {
    OnePara(text);
    WordStays(adv, text, room, size, face);
    WrapOne(adv, text, room, size, face);
    hide Wrapped, WrapParagraph;
  }

  /** n lines of one letter. */
  function Lines(letter: char, n: nat): (lines: seq<string>)
    ensures |lines| == n && forall i :: 0 <= i < n ==> lines[i] == [letter]
  {
    seq(n, _ => [letter])
  }

  lemma LinesKept(adv: Advance, text: string, letter: char, n: nat, room: real, size: Size, face: Face)
    requires letter != ' ' && letter != '\n' && n > 0 && text == Join(Lines(letter, n), ['\n'])
    ensures Split(text, '\n') == Lines(letter, n) && Wrapped(adv, text, room, size, face) == Lines(letter, n)
  {
    SplitJoin(Lines(letter, n), '\n');
    LettersStay(adv, Lines(letter, n), room, size, face);
  }

  lemma AsideLines()
    ensures ASIDE == Join(Lines('a', 2), ['\n'])
  {
    assert Lines('a', 2) == ["a", "a"] && ["a", "a"][1..] == ["a"];
  }

  lemma FourLines()
    ensures FOUR == Join(Lines('b', 4), ['\n'])
  {
    assert Lines('b', 4) == ["b", "b", "b", "b"] && ["b", "b", "b", "b"][1..] == ["b", "b", "b"];
    assert ["b", "b", "b"][1..] == ["b", "b"] && ["b", "b"][1..] == ["b"];
  }

  lemma AsideIs(fonts: Fonts)
    requires Budgeted(fonts)
    ensures LabelBox(fonts, ASIDE).h == 30 && 0 <= LabelBox(fonts, ASIDE).w <= 8
  {
    AsideLines();
    LinesKept(fonts.adv, ASIDE, 'a', 2, LABEL_MAX, RAMP_LABEL, Mono);
    assert AllLow("a");
    LowEm(fonts, "a", Mono);
    hide Em, Wrapped, Budgeted, ASIDE;
    assert TextWidth(fonts.adv, "a", RAMP_LABEL, Mono) == 6.9;
    hide TextWidth;
    WidestWithin(fonts.adv, Lines('a', 2), RAMP_LABEL, Mono, 6.9);
  }

  function Beside(): FlowNode {
    FlowNode("b", FOUR, Flow.Step, None)
  }

  lemma NodesAre()
    ensures DistinctIds(Nodes()) && |Nodes()| == 4 && Nodes()[3] == Beside()
    ensures forall k: nat :: k < 4 ==> NodeNamed(Choosing(), Nodes()[k].id) == Some(Nodes()[k])
  {
    hide FOUR, IndexOf;
    forall k: nat | k < 4 ensures NodeNamed(Choosing(), Nodes()[k].id) == Some(Nodes()[k]) {
      IndexUnique(Nodes(), k);
    }
  }

  lemma SideNodesAre()
    ensures NodesNamed(Choosing(), SideIds(SHAPE, PATH)) == [Beside()]
  {
    hide FOUR, NodeNamed;
    NodesAre();
    assert PATH[1..] == ["c", "t"] && ["c", "t"][1..] == ["t"] && ["t"][1..] == [];
    assert SideIds(SHAPE, []) == [];
    assert SideIds(SHAPE, ["t"]) == [];
    assert SideIds(SHAPE, ["c", "t"]) == ["b"];
    assert ["b"][1..] == [] && NodesNamed(Choosing(), []) == [];
    assert Nodes()[3].id == "b";
  }

  lemma FourStyle(fonts: Fonts)
    requires Budgeted(fonts)
    ensures StyleOf(fonts, Beside()) == FlowStyle(Sans, RAMP_TEXT, false)
  {
    assert forall i :: 0 <= i < |FOUR| ==> Low(FOUR[i]) || FOUR[i] == '\n';
    LowPlain(fonts, FOUR);
    hide FOUR;
  }

  lemma LetterWide(fonts: Fonts, n: nat)
    requires Budgeted(fonts)
    ensures WidestRun(fonts.adv, Lines('b', n), RAMP_TEXT, Sans) <= 7.28
  {
    hide Budgeted, TextWidth;
    assert AllLow("b") && |"b"| == 1;
    LowWidth(fonts, "b");
    WidestWithin(fonts.adv, Lines('b', n), RAMP_TEXT, Sans, 7.28);
  }

  lemma FourWords()
    ensures Words(FOUR) == Lines('b', 4)
  {
    WordsOfWord("b");
    NextLine("b", ["b"]);
    NextLine("b\nb", ["b", "b"]);
    NextLine("b\nb\nb", ["b", "b", "b"]);
    assert FOUR == "b\n" + "b\nb\nb";
    assert Lines('b', 4) == ["b"] + ["b", "b", "b"];
  }

  lemma NextLine(rest: string, words: seq<string>)
    requires Words(rest) == words
    ensures Words("b\n" + rest) == ["b"] + words
  {
    var more := "b\n" + rest;
    assert more[1..] == "\n" + rest && more[1..][1..] == rest;
    assert Words(more[1..]) == [""] + words;
    assert ([""] + words)[1..] == words;
    assert more[0] == 'b' && !IsSpace('b') && ['b'] + "" == "b";
    assert Words(more) == [['b'] + ""] + words;
  }

  /** The branch's column is 200 px wide. */
  lemma SideIs(fonts: Fonts)
    requires Budgeted(fonts)
    ensures SideWidth(fonts, Choosing(), FoundIt()) == 200
  {
    hide Budgeted, GraphOf, NodesNamed, StyleOf, WidestRun, Words, Split, FOUR, Nodes;
    SideNodesAre();
    FourStyle(fonts);
    FourWords();
    FourLines();
    LinesKept(fonts.adv, FOUR, 'b', 4, 168.0, RAMP_TEXT, Sans);
    LetterWide(fonts, 4);
    OneWide(fonts, Beside());
  }

  lemma OneWide(fonts: Fonts, n: FlowNode)
    requires var s := StyleOf(fonts, n); WidestRun(fonts.adv, Words(n.text), s.size, s.face) <= 7.28
    requires var s := StyleOf(fonts, n); WidestRun(fonts.adv, Split(n.text, '\n'), s.size, s.face) <= 7.28
    ensures BoxWidth(fonts, [n], 200, 280) == 200
  {
    hide WidestRun, Words, StyleOf, Split;
    assert [n][1..] == [];
    assert LongestWord(fonts, []) == 0.0 && WidestLabel(fonts, []) == 0.0;
    assert LongestWord(fonts, [n]) <= 7.28 && WidestLabel(fonts, [n]) <= 7.28;
    hide LongestWord, WidestLabel;
    UpToLow(LongestWord(fonts, [n]) + 2.0 * PAD_X);
    UpToLow(WidestLabel(fonts, [n]) + 2.0 * PAD_X);
  }

  lemma UpToLow(v: real)
    requires v <= 40.0
    ensures UpTo(v, 8) <= 40
  {
    assert v / 8.0 <= 5.0;
  }

  lemma SizesAre(fonts: Fonts)
    requires Budgeted(fonts)
    ensures var ir, f := Choosing(), FoundIt();
            && SizeOf(fonts, ir, f, "s").w == SizeOf(fonts, ir, f, "s").h == 16
            && SizeOf(fonts, ir, f, "c").w == SizeOf(fonts, ir, f, "c").h == 28
            && SizeOf(fonts, ir, f, "t").w == SizeOf(fonts, ir, f, "t").h == 20
            && SizeOf(fonts, ir, f, "b").w == 200 && SizeOf(fonts, ir, f, "b").h == 92
            && IsSingle(ir, "s") && IsSingle(ir, "c") && IsSingle(ir, "t")
  {
    hide Budgeted, GraphOf, NodesNamed, StyleOf, FOUR, SideWidth, PathWidth, NodeNamed, Wrapped;
    NodesAre();
    SideIs(fonts);
    FourStyle(fonts);
    FourLines();
    LinesKept(fonts.adv, FOUR, 'b', 4, 168.0, RAMP_TEXT, Sans);
    var n := Nodes();
    assert n[0].id == "s" && n[1].id == "c" && n[2].id == "t" && n[3].id == "b";
  }

  function Look(fonts: Fonts): Looks {
    LooksOf(fonts, Choosing(), FoundIt())
  }

  lemma TextsAre(fonts: Fonts)
    ensures var k := Look(fonts);
            k.text(0) == Some(LabelBox(fonts, STEP)) && k.text(1).None? && k.text(2) == Some(LabelBox(fonts, ASIDE))
  {
    hide GraphOf, SideWidth, SizeOf, LabelBox;
    assert STEP != "" && ASIDE != "";
    hide STEP, ASIDE;
  }

  function Dots(step: LabelSize, aside: LabelSize): Plan {
    Plan([Row(16.0, 16.0, [], Some(step), true), Row(28.0, 28.0, [Link(200.0, 92.0, Some(aside))], None, true),
          Row(20.0, 20.0, [], None, true)], 200.0)
  }

  lemma PlanIs(fonts: Fonts)
    requires Budgeted(fonts)
    ensures Known(FoundIt())
    ensures PlanOf(Look(fonts), FoundIt()) == Dots(LabelBox(fonts, STEP), LabelBox(fonts, ASIDE))
  {
    hide Budgeted, GraphOf, SideWidth, SizeOf, Ready, Spine, LabelBox, STEP, ASIDE, IsSingle, Nodes, Edges;
    SpineIs();
    SideIs(fonts);
    SizesAre(fonts);
    TextsAre(fonts);
    var looks, f := Look(fonts), FoundIt();
    var p := PlanOf(looks, f);
    assert p.rows[0] == RowAt(looks, f, 0) && p.rows[1] == RowAt(looks, f, 1) && p.rows[2] == RowAt(looks, f, 2);
    assert LinksOf(looks, CHAIN) == [Link(200.0, 92.0, looks.text(2))];
  }

  // ---- what lies over what ----

  lemma DotsAcross(step: LabelSize, aside: LabelSize)
    requires 0 <= aside.w <= 8
    ensures var p := Dots(step, aside); Right(p.rows) == 14.0 && ColumnX(p.rows, p.sideW, Right(p.rows), 0) == 110.0
  {
    var a, b, c := Dots(step, aside).rows[0], Dots(step, aside).rows[1], Dots(step, aside).rows[2];
    assert [a, b, c][1..] == [b, c] && [b, c][1..] == [c] && [c][1..] == [];
    assert Right([]) == 0.0 && Right([c]) == 10.0 && Right([b, c]) == 14.0;
    assert WidestInto([], 0) == 0 && WidestInto([c], 0) == 0 && WidestInto([b, c], 0) == aside.w;
  }

  lemma DotsDown(step: LabelSize, aside: LabelSize)
    requires step.h == 15 && aside.h == 30
    ensures var p := Dots(step, aside); Drop(p, 0) == 82.0
  {
    var link := Link(200.0, 92.0, Some(aside));
    assert [link][1..] == [] && Tallest([]) == 0.0 && Above([]) == 0.0;
    assert Tallest([link]) == 92.0 && Above([link]) == 38.0;
  }

  /** The step's label ends at 119, the branch's column starts at 110; the box there is 92 tall
      where 73 would clear the label, and 76 is needed to clear the branch's own. */
  lemma DotsOver(step: LabelSize, aside: LabelSize)
    requires step.w == 111 && step.h == 15 && 0 <= aside.w <= 8 && aside.h == 30
    ensures var p := Dots(step, aside);
            && HasLabel(p, Down(0)) && HasLabel(p, Out(1, 0)) && HasMark(p, Hung(1, 0)) && AllKeep(p)
            && StepReaches(p, 0, Hung(1, 0)) && StepMeets(p, 0, 1, 0)
  {
    hide Drop, ColumnX, Right;
    DotsAcross(step, aside);
    DotsDown(step, aside);
    var p := Dots(step, aside);
    assert Slack(p, 0, 28.0, 16.0) == 73.0;
  }

  /** In every drawing of this flow the label of the step from the start lies over the node
      beside the choice, and over the label of the arrow to it. */
  lemma StepDrawnOver(fonts: Fonts, d: Drawing)
    requires Budgeted(fonts) && Known(FoundIt()) && Drawn(Look(fonts), FoundIt(), d)
    ensures 0 in d.routes && 2 in d.routes && "b" in d.boxes
    ensures d.routes[0].caption.Some? && d.routes[2].caption.Some?
    ensures Overlaps(d.routes[0].caption.value, d.boxes["b"])
    ensures Overlaps(d.routes[0].caption.value, d.routes[2].caption.value)
  {
    hide Budgeted, Choosing, Look, PlanOf, Drawn, AllKeep, Known, Ready, GraphOf, OrderOf, LabelBox, STEP, ASIDE;
    hide Overlaps;
    hide StepReaches, StepMeets, Dots, EdgeAt, NodeAt, LineRoute;
    var looks, f := Look(fonts), FoundIt();
    var order := OrderOf(looks, f);
    PlanIs(fonts);
    StepIs(fonts);
    AsideIs(fonts);
    DotsOver(LabelBox(fonts, STEP), LabelBox(fonts, ASIDE));
    PlacesAre(order);
    RouteDrawn(looks, f, d, Along(Down(0)), 0);
    RouteDrawn(looks, f, d, Along(Out(1, 0)), 2);
    CaptionIs(PlanOf(looks, f), order, Down(0));
    CaptionIs(PlanOf(looks, f), order, Out(1, 0));
    LabelsOver(looks, f, d, Along(Down(0)), 0, Hung(1, 0), "b");
    LabelsApart(looks, f, d, Along(Down(0)), 0, Along(Out(1, 0)), 2);
  }

  lemma CaptionIs(p: Plan, order: seq<SpineLanes.Lane>, a: Arrow)
    requires HasLabel(p, a) && OnRows(p, order)
    ensures HasLine(p, order, Along(a)) && LineRoute(p, order, Along(a)).caption.Some?
  {
    hide ArrowLabel, ArrowPoints;
  }

  lemma PlacesAre(order: seq<SpineLanes.Lane>)
    ensures EdgeAt(FoundIt(), order, Along(Down(0)), 0) && EdgeAt(FoundIt(), order, Along(Out(1, 0)), 2)
    ensures NodeAt(FoundIt(), Hung(1, 0), "b")
  {
    hide GraphOf;
  }

  /** And there is such a drawing: layoutSpine takes the flow. */
  lemma DotsTaken(fonts: Fonts)
    ensures IrOk(Choosing()) && Spine(Choosing()) == Some(FoundIt()) && Known(FoundIt())
            && LanesFit(Look(fonts), FoundIt())
  {
    hide LooksOf, GraphOf, Nodes;
    SpineIs();
    assert LanesOf(Look(fonts), FoundIt()) == [];
  }
}
