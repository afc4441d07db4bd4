// A flow layoutSpine draws badly (ui/src/diagramLayout.ts): a branch whose decision asks a long
// question is drawn over the next node, and the arrows past it run on top of each other.
module SpineLong {
  import opened Geometry
  import opened Routes
  import opened Text
  import opened DiagramTheme
  import opened Flow
  import opened FlowLabels
  import opened SpinePath
  import opened SpineSizes
  import opened SpineRows
  import opened SpineDrawn
  import opened SpineLayout
  import opened SpineLooks
  import opened SpinePlacing
  import opened SpineTheorem
  import opened SpineSmall
  import SpineShape
  import SpineLanes
  import Counting

  // ---- the flow ----

  const NINE := "xxxxxxxxx"

  /** Fifteen words of nine letters. */
  function Question(): string {
    Join(Nines(15), " ")
  }

  function Nines(n: nat): (words: seq<string>)
    ensures |words| == n && forall i :: 0 <= i < n ==> words[i] == NINE
  {
    seq(n, _ => NINE)
  }

  function Edges(): seq<FlowEdge> {
    [
      FlowEdge("s", "p", "", false, HeadAtEnd), FlowEdge("p", "q", "", false, HeadAtEnd),
      FlowEdge("q", "r", "", false, HeadAtEnd), FlowEdge("s", "d", "", false, HeadAtEnd),
      FlowEdge("d", "e", "", false, HeadAtEnd), FlowEdge("e", "f", "", false, HeadAtEnd)
    ]
  }

  function Node(id: string): FlowNode {
    FlowNode(id, id, Flow.Step, None)
  }

  function Nodes(): seq<FlowNode> {
    [Node("s"), Node("p"), Node("q"), Node("r"), FlowNode("d", Question(), Flow.Decision, None), Node("e"), Node("f")]
  }

  /** s to p to q to r; from s also to the decision d, and on to e and f. */
  function Asking(): FlowIR {
    FlowIR(TopDown, Nodes(), Edges(), [])
  }

  const PATH := ["s", "p", "q", "r"]
  const IDS := {"s", "p", "q", "r", "d", "e", "f"}
  const CHAIN := SpineShape.Chain([3, 4, 5], ["d", "e", "f"])
  const AT_START := SpineShape.Shape(map[], {"s", "p", "q", "r"}, [], map[])
  const STEPPED := SpineShape.Shape(map[], {"s", "p", "q", "r"}, [], map["s" := 0])
  const BRANCHED := SpineShape.Shape(map["s" := CHAIN], IDS, [], map["s" := 0])
  const AT_Q := SpineShape.Shape(map["s" := CHAIN], IDS, [], map["s" := 0, "p" := 1])
  const SHAPE := SpineShape.Shape(map["s" := CHAIN], IDS, [], map["s" := 0, "p" := 1, "q" := 2])

  function FoundIt(): Found {
    Found(GraphOf(Asking()), PATH, SHAPE)
  }

  predicate Shaped(edges: seq<FlowEdge>) {
    && |edges| == 6
    && (forall i: nat :: i < 6 ==> edges[i].from == ["s", "p", "q", "s", "d", "e"][i] && edges[i].text == "")
    && (forall i: nat :: i < 6 ==> edges[i].to == ["p", "q", "r", "d", "e", "f"][i])
  }

  lemma EdgesShaped()
    ensures Shaped(Edges())
  {
  }

  lemma PathOuts(edges: seq<FlowEdge>)
    requires Shaped(edges)
    ensures OutOf(edges, "s") == [0, 3] && OutOf(edges, "p") == [1] && OutOf(edges, "q") == [2]
    ensures OutOf(edges, "r") == []
  {
    hide OutOf;
    OutIs(edges, "s", [0, 3]);
    OutIs(edges, "p", [1]);
    OutIs(edges, "q", [2]);
    OutIs(edges, "r", []);
  }

  lemma SideOuts(edges: seq<FlowEdge>)
    requires Shaped(edges)
    ensures OutOf(edges, "d") == [4] && OutOf(edges, "e") == [5] && OutOf(edges, "f") == []
  {
    hide OutOf;
    OutIs(edges, "d", [4]);
    OutIs(edges, "e", [5]);
    OutIs(edges, "f", []);
  }

  lemma Intos(edges: seq<FlowEdge>)
    requires Shaped(edges)
    ensures Into(edges, "s") == [] && Into(edges, "d") == [3] && Into(edges, "e") == [4] && Into(edges, "f") == [5]
  {
    hide Into;
    IntoIs(edges, "s", []);
    IntoIs(edges, "d", [3]);
    IntoIs(edges, "e", [4]);
    IntoIs(edges, "f", [5]);
  }

  /** Where the path's edges lead, and the branch's. */
  ghost predicate PathWays(g: Graph) {
    && OutOf(g.edges, "s") == [0, 3] && OutOf(g.edges, "p") == [1] && OutOf(g.edges, "q") == [2]
    && OutOf(g.edges, "r") == []
    && Next(g, "s", 0) == "p" && Next(g, "s", 1) == "d" && Next(g, "p", 0) == "q" && Next(g, "q", 0) == "r"
  }

  ghost predicate SideWays(g: Graph) {
    && OutOf(g.edges, "d") == [4] && OutOf(g.edges, "e") == [5] && OutOf(g.edges, "f") == []
    && Into(g.edges, "d") == [3] && Into(g.edges, "e") == [4] && Into(g.edges, "f") == [5]
    && Next(g, "d", 0) == "e" && Next(g, "e", 0) == "f"
  }

  /** What the graph of the flow is. */
  ghost predicate Ways(g: Graph) {
    g.Valid() && g.nodes == IDS && PathWays(g) && SideWays(g)
  }

  lemma GraphIs()
    ensures Ways(GraphOf(Asking())) && Shaped(GraphOf(Asking()).edges) && Into(Edges(), "s") == []
  {
    hide OutOf, Into, Edges, Question, Next, Shaped;
    EdgesShaped();
    IdsAre();
    Intos(Edges());
    var g := GraphOf(Asking());
    ValidIs(g);
    OutwardIs(g);
    SidewardIs(g);
  }

  lemma ValidIs(g: Graph)
    requires Shaped(g.edges) && g.nodes == IDS
    ensures g.Valid() && forall e <- g.edges :: e.from != e.to
  {
    forall e | e in g.edges ensures e.from in g.nodes && e.to in g.nodes && e.from != e.to {
      var i :| 0 <= i < |g.edges| && g.edges[i] == e;
    }
  }

  lemma OutwardIs(g: Graph)
    requires Shaped(g.edges)
    ensures PathWays(g)
  {
    hide OutOf;
    PathOuts(g.edges);
  }

  lemma SidewardIs(g: Graph)
    requires Shaped(g.edges)
    ensures SideWays(g)
  {
    hide OutOf, Into;
    SideOuts(g.edges);
    Intos(g.edges);
  }

  lemma IdsAre()
    ensures GraphOf(Asking()).nodes == IDS
  {
    hide Question;
    var g, n := GraphOf(Asking()), Nodes();
    forall k | 0 <= k < |n| ensures n[k].id in g.nodes {
      assert n[k] in n;
    }
    assert n[0].id in g.nodes && n[1].id in g.nodes && n[2].id in g.nodes && n[3].id in g.nodes;
    assert n[4].id in g.nodes && n[5].id in g.nodes && n[6].id in g.nodes;
    forall id | id in g.nodes ensures id in IDS {
      var x :| x in n && x.id == id;
    }
  }

  lemma PathIs(g: Graph)
    requires Ways(g)
    ensures LongestFrom(g, "s", {}) == PATH
  {
    hide OutOf, Into, Next, LongestFrom;
    LongestEnd(g, "r", {"s", "p", "q"});
    LongestOn(g, "q", {"s", "p"}, "r");
    LongestOn(g, "p", {"s"}, "q");
    assert {"s"} + {"p"} == {"s", "p"} && {"s", "p"} + {"q"} == {"s", "p", "q"};
    LongestEnd(g, "f", {"s", "d", "e"});
    LongestOn(g, "e", {"s", "d"}, "f");
    LongestOn(g, "d", {"s"}, "e");
    assert {"s"} + {"d"} == {"s", "d"} && {"s", "d"} + {"e"} == {"s", "d", "e"} && {} + {"s"} == {"s"};
    LongestFirst(g, "s", {}, "p", "d");
  }

  lemma WalkIs(g: Graph)
    requires Ways(g)
    ensures SpineShape.WalkChain(g, PATH, AT_START.placed, SpineShape.Chain([3], ["d"])) == Some((CHAIN, IDS))
  {
    hide OutOf, Into, Next;
    var c, longer := SpineShape.Chain([3], ["d"]), SpineShape.Chain([3, 4], ["d", "e"]);
    assert SpineShape.LastOf(c) == "d" && SpineShape.LastOf(longer) == "e" && SpineShape.LastOf(CHAIN) == "f";
    assert c.edges + [4] == longer.edges && c.nodes + ["e"] == longer.nodes;
    assert longer.edges + [5] == CHAIN.edges && longer.nodes + ["f"] == CHAIN.nodes;
    var seen := AT_START.placed + {"d"};
    assert seen + {"e"} + {"f"} == IDS;
    assert SpineShape.WalkChain(g, PATH, seen + {"e"}, CHAIN) == Some((CHAIN, IDS));
    assert SpineShape.WalkChain(g, PATH, seen, longer) == Some((CHAIN, IDS));
  }

  ghost predicate ClassedAs(g: Graph, sh: SpineShape.Shape, k: nat, n: nat, after: SpineShape.Shape) {
    && g.Valid() && k < 4 && n < |OutOf(g.edges, PATH[k])| && SpineShape.Classify(g, PATH, sh, k, n) == Some(after)
  }

  lemma ClassesAre(g: Graph)
    requires Ways(g)
    ensures ClassedAs(g, AT_START, 0, 0, STEPPED) && ClassedAs(g, STEPPED, 0, 1, BRANCHED)
    ensures ClassedAs(g, BRANCHED, 1, 0, AT_Q) && ClassedAs(g, AT_Q, 2, 0, SHAPE)
  {
    hide OutOf, Into, Next, SpineShape.WalkChain;
    WalkIs(g);
  }

  lemma ShapeIs(g: Graph)
    requires Ways(g)
    ensures SpineShape.ShapeOf(g, PATH) == Some(SHAPE)
  {
    hide OutOf, Into, Next, SpineShape.Classify, SideWays;
    ClassesAre(g);
    assert Counting.Elements(PATH) == {"s", "p", "q", "r"};
    assert SpineShape.ShapeAfter(g, PATH, 0, 0) == Some(AT_START);
    assert SpineShape.ShapeAfter(g, PATH, 0, 1) == Some(STEPPED);
    assert SpineShape.ShapeAfter(g, PATH, 0, 2) == Some(BRANCHED);
    assert SpineShape.ShapeAfter(g, PATH, 1, 0) == Some(BRANCHED);
    assert SpineShape.ShapeAfter(g, PATH, 1, 1) == Some(AT_Q);
    assert SpineShape.ShapeAfter(g, PATH, 2, 0) == Some(AT_Q);
    assert SpineShape.ShapeAfter(g, PATH, 2, 1) == Some(SHAPE);
    assert SpineShape.ShapeAfter(g, PATH, 3, 0) == Some(SHAPE);
    assert SpineShape.ShapeAfter(g, PATH, 4, 0) == Some(SHAPE);
    assert |IDS| == 7;
  }

  /** layoutSpine takes this flow. */
  lemma SpineIs()
    ensures IrOk(Asking()) && Spine(Asking()) == Some(FoundIt()) && Ready(FoundIt()) && Known(FoundIt())
  {
    hide OutOf, Into, Next, LongestFrom, SpineShape.ShapeOf, Question, Edges, PathWays, SideWays, Shaped, GraphOf;
    GraphIs();
    var g := GraphOf(Asking());
    assert g.edges == Edges() by { EdgesOf(); }
    ValidIs(g) by { IdsAre(); }
    PathIs(g);
    ShapeIs(g);
    assert StartOf(Nodes(), Edges()) == Some("s");
    SpineWith(Asking(), PATH, SHAPE);
  }

  lemma EdgesOf()
    ensures GraphOf(Asking()).edges == Edges()
  {
  }

  // ---- its boxes ----

  lemma NineIs()
    ensures |NINE| == 9 && AllLow(NINE) && ' ' !in NINE && forall i :: 0 <= i < |NINE| ==> !IsSpace(NINE[i])
  {
  }

  lemma {:induction false} NinesLong(n: nat)
    requires n > 0
    ensures AllLow(Join(Nines(n), " ")) && |Join(Nines(n), " ")| == 10 * n - 1
  {
    NineIs();
    if n > 1 {
      assert Nines(n)[1..] == Nines(n - 1);
      NinesLong(n - 1);
    }
  }

  /** Words of nine letters make a single-spaced line, and are its words. */
  lemma NinesSpaced(n: nat, text: string)
    requires n > 0 && text == Join(Nines(n), " ")
    ensures AllLow(text) && |text| == 10 * n - 1 && Split(text, ' ') == Nines(n)
    ensures SingleSpaced(text) && '\n' !in text && Words(text) == Nines(n)
  {
    NinesLong(n);
    NineIs();
    SplitJoin(Nines(n), ' ');
    hide Join, NINE;
    assert '\n' !in text;
    OnePara(text);
    WordsAreRuns(text);
    assert [text][1..] == [];
    assert AllWords([text]) == Split(text, ' ') + AllWords([]);
  }

  /** The question is 149 characters, single-spaced, its words nine letters each. */
  lemma QuestionIs()
    ensures AllLow(Question()) && |Question()| == 149 && SingleSpaced(Question()) && '\n' !in Question()
    ensures Words(Question()) == Nines(15)
  {
    hide Join, Nines, Words, SingleSpaced, AllLow, Split;
    NinesSpaced(15, Question());
  }

  lemma SansIs(fonts: Fonts, n: FlowNode)
    requires Budgeted(fonts) && AllLow(n.text) && !n.shape.Pill?
    ensures StyleOf(fonts, n) == FlowStyle(Sans, RAMP_TEXT, false)
  {
    LowPlain(fonts, n.text);
  }

  function Decision(): FlowNode {
    FlowNode("d", Question(), Flow.Decision, None)
  }

  lemma QuestionWide(fonts: Fonts)
    requires Budgeted(fonts)
    ensures var s := StyleOf(fonts, Decision());
            && s == FlowStyle(Sans, RAMP_TEXT, false)
            && TextWidth(fonts.adv, Question(), s.size, s.face) == 1084.72
            && TextWidth(fonts.adv, " ", s.size, s.face) == 7.28
            && WidestRun(fonts.adv, Words(Question()), s.size, s.face) <= 65.52
            && WidestRun(fonts.adv, Split(Question(), '\n'), s.size, s.face) >= 1084.72
  {
    hide Budgeted, TextWidth, WidestRun, Question, Words, Split, AllLow, SingleSpaced, StyleOf;
    QuestionIs();
    SansIs(fonts, Decision());
    LowWidth(fonts, Question());
    LowWidth(fonts, " ") by { assert AllLow(" ") by { SpaceLow(); } }
    NinesNarrow(fonts, 15);
    OnePara(Question());
    assert Question() in Split(Question(), '\n');
  }

  lemma SpaceLow()
    ensures AllLow(" ")
  {
  }

  lemma NinesNarrow(fonts: Fonts, n: nat)
    requires Budgeted(fonts)
    ensures WidestRun(fonts.adv, Nines(n), RAMP_TEXT, Sans) <= 65.52
  {
    hide Budgeted, TextWidth, WidestRun;
    NineIs();
    LowWidth(fonts, NINE);
    WidestWithin(fonts.adv, Nines(n), RAMP_TEXT, Sans, 65.52);
  }

  lemma LetterNarrow(fonts: Fonts, id: string)
    requires Budgeted(fonts) && |id| == 1 && AllLow(id) && !IsSpace(id[0])
    ensures var s := StyleOf(fonts, Node(id)); WidestRun(fonts.adv, Words(id), s.size, s.face) <= 65.52
  {
    hide Budgeted, TextWidth, WidestRun, Words, StyleOf;
    SansIs(fonts, Node(id));
    LowWidth(fonts, id);
    WordsOfWord(id);
    WidestWithin(fonts.adv, [id], RAMP_TEXT, Sans, 65.52);
  }

  lemma Named(nodes: seq<FlowNode>, k: nat, ir: FlowIR)
    requires ir.nodes == nodes && DistinctIds(nodes) && k < |nodes|
    ensures NodeNamed(ir, nodes[k].id) == Some(nodes[k])
  {
    IndexUnique(nodes, k);
  }

  lemma NodesDistinct()
    ensures DistinctIds(Nodes()) && |Nodes()| == 7
  {
    hide Question;
  }

  lemma SideNodesAre()
    ensures NodesNamed(Asking(), SideIds(SHAPE, PATH)) == [Decision(), Node("e"), Node("f")]
    ensures NodeNamed(Asking(), "d") == Some(Decision()) && NodeNamed(Asking(), "e") == Some(Node("e"))
    ensures NodeNamed(Asking(), "f") == Some(Node("f"))
  {
    hide Question, NodeNamed, DistinctIds, Edges, SideIds;
    var ir, n := Asking(), Nodes();
    NodesDistinct();
    Named(n, 4, ir);
    Named(n, 5, ir);
    Named(n, 6, ir);
    SideIdsAre();
    assert ["d", "e", "f"][1..] == ["e", "f"] && ["e", "f"][1..] == ["f"] && ["f"][1..] == [];
    assert NodesNamed(ir, []) == [];
    assert NodesNamed(ir, ["f"]) == [Node("f")];
    assert NodesNamed(ir, ["e", "f"]) == [Node("e"), Node("f")];
  }

  lemma SideIdsAre()
    ensures SideIds(SHAPE, PATH) == ["d", "e", "f"]
  {
    assert PATH[1..] == ["p", "q", "r"] && ["p", "q", "r"][1..] == ["q", "r"] && ["q", "r"][1..] == ["r"]
           && ["r"][1..] == [];
    assert SideIds(SHAPE, []) == [];
    assert SideIds(SHAPE, ["r"]) == [];
    assert SideIds(SHAPE, ["q", "r"]) == [];
    assert SideIds(SHAPE, ["p", "q", "r"]) == [];
  }

  lemma ThreeWide(fonts: Fonts, a: FlowNode, b: FlowNode, c: FlowNode)
    requires var s := StyleOf(fonts, a); WidestRun(fonts.adv, Words(a.text), s.size, s.face) <= 65.52
    requires var s := StyleOf(fonts, b); WidestRun(fonts.adv, Words(b.text), s.size, s.face) <= 65.52
    requires var s := StyleOf(fonts, c); WidestRun(fonts.adv, Words(c.text), s.size, s.face) <= 65.52
    requires var s := StyleOf(fonts, a); WidestRun(fonts.adv, Split(a.text, '\n'), s.size, s.face) >= 1084.72
    ensures LongestWord(fonts, [a, b, c]) <= 65.52 && WidestLabel(fonts, [a, b, c]) >= 1084.72
  {
    hide WidestRun, Words, StyleOf, Split;
    assert [a, b, c][1..] == [b, c] && [b, c][1..] == [c] && [c][1..] == [];
    assert LongestWord(fonts, []) == 0.0 && LongestWord(fonts, [c]) <= 65.52 && LongestWord(fonts, [b, c]) <= 65.52;
  }

  /** The branch's boxes share 280 px, the widest they may. */
  lemma SideIs(fonts: Fonts)
    requires Budgeted(fonts)
    ensures SideWidth(fonts, Asking(), FoundIt()) == 280
  {
    hide Budgeted, Question, GraphOf, LongestWord, WidestLabel, NodesNamed, StyleOf, WidestRun, Words, Split;
    SideNodesAre();
    QuestionWide(fonts);
    LetterNarrow(fonts, "e");
    LetterNarrow(fonts, "f");
    ThreeWide(fonts, Decision(), Node("e"), Node("f"));
    WidthIs(fonts, [Decision(), Node("e"), Node("f")]);
  }

  lemma WidthIs(fonts: Fonts, nodes: seq<FlowNode>)
    requires LongestWord(fonts, nodes) <= 65.52 && WidestLabel(fonts, nodes) >= 1084.72
    ensures BoxWidth(fonts, nodes, 200, 280) == 280
  {
    hide LongestWord, WidestLabel;
    UpToAtMost(LongestWord(fonts, nodes) + 2.0 * PAD_X, 97.52);
    UpToAtLeast(WidestLabel(fonts, nodes) + 2.0 * PAD_X);
  }

  lemma UpToAtMost(v: real, most: real)
    requires v <= most == 97.52
    ensures UpTo(v, 8) <= 104
  {
    assert v / 8.0 <= 13.0;
  }

  lemma UpToAtLeast(v: real)
    ensures UpTo(v, 8) as real >= v
  {
  }

  /** The decision's box is 740 wide, as wide as any diamond tried. */
  lemma DecisionWide(fonts: Fonts)
    requires Budgeted(fonts)
    ensures SizeOf(fonts, Asking(), FoundIt(), "d").w == 740
    ensures SizeOf(fonts, Asking(), FoundIt(), "e").w == 280 && SizeOf(fonts, Asking(), FoundIt(), "f").w == 280
  {
    hide Budgeted, Question, GraphOf, SideWidth, NodesNamed, StyleOf, TextWidth, DiamondOf, NodeLines, PathWidth;
    hide TooLong;
    SideNodesAre();
    SideIs(fonts);
    assert TooLong(fonts.adv, CaptionOf(fonts, Decision()), 740) by { QuestionTooLong(fonts); }
    TooLongWidest(fonts.adv, CaptionOf(fonts, Decision()), 260);
    assert Question() != "" by { QuestionIs(); }
  }

  lemma QuestionTooLong(fonts: Fonts)
    requires Budgeted(fonts)
    ensures TooLong(fonts.adv, CaptionOf(fonts, Decision()), 740)
  {
    hide Budgeted, Question, TextWidth, StyleOf, WidestRun, SingleSpaced, Words, MostHeld;
    QuestionIs();
    QuestionWide(fonts);
    var c := CaptionOf(fonts, Decision());
    forall k: nat | 1 <= k <= 4 ensures MostHeld(fonts.adv, c, 740, k) < 1084.72 {
      HeldLess(fonts.adv, c, k);
    }
  }

  lemma HeldLess(adv: Advance, c: Caption, k: nat)
    requires 1 <= k <= 4 && TextWidth(adv, " ", c.size, c.face) == 7.28
    ensures MostHeld(adv, c, 740, k) < 1084.72
  {
    hide TextWidth;
    if k == 1 {
    } else if k == 2 {
    } else if k == 3 {
    } else {
      assert k == 4;
    }
  }

  function Look(fonts: Fonts): Looks {
    LooksOf(fonts, Asking(), FoundIt())
  }

  lemma PlanIs(fonts: Fonts)
    requires Budgeted(fonts)
    ensures Known(FoundIt())
    ensures var p := PlanOf(Look(fonts), FoundIt());
            && |p.rows| == 4 && |p.rows[0].chain| == 3 && p.sideW == 280.0
            && p.rows[0].chain[0].w == 740.0 && p.rows[0].chain[1].w == 280.0
            && forall r <- p.rows :: forall l <- r.chain :: l.text.None?
  {
    hide Budgeted, Question, GraphOf, SideWidth, SizeOf, Ready, Spine;
    SpineIs();
    SideIs(fonts);
    DecisionWide(fonts);
    var looks, f := Look(fonts), FoundIt();
    var p := PlanOf(looks, f);
    assert p.rows[0] == RowAt(looks, f, 0) && p.rows[1] == RowAt(looks, f, 1);
    assert p.rows[2] == RowAt(looks, f, 2) && p.rows[3] == RowAt(looks, f, 3);
    assert p.rows[0].chain == LinksOf(looks, CHAIN);
    assert p.rows[1].chain == [] && p.rows[2].chain == [] && p.rows[3].chain == [];
    LinksPlain(fonts);
  }

  /** The branch's arrows bear no label. */
  lemma LinksPlain(fonts: Fonts)
    ensures forall l <- LinksOf(Look(fonts), CHAIN) :: l.text.None?
  {
    hide Look;
    NoTexts(fonts);
  }

  lemma NoTexts(fonts: Fonts)
    ensures Look(fonts).text(3).None? && Look(fonts).text(4).None? && Look(fonts).text(5).None?
  {
    hide Question, GraphOf, SideWidth, SizeOf;
    EdgesShaped();
  }

  /** The way to the next column is 328, so the decision lies over the next node, and the arrow
      out of it runs back behind the node after that and over the arrow there. */
  lemma BranchOverruns(p: Plan)
    requires |p.rows| == 4 && |p.rows[0].chain| == 3 && p.sideW == 280.0
    requires p.rows[0].chain[0].w == 740.0 && p.rows[0].chain[1].w == 280.0
    requires forall r <- p.rows :: forall l <- r.chain :: l.text.None?
    ensures !AllKeep(p)
    ensures HasArrow(p, Out(0, 1)) && HasArrow(p, Out(0, 2)) && BranchTogether(p, Out(0, 1), Out(0, 2))
    ensures HasMark(p, Hung(0, 2)) && RunsBehind(p, 0, 1, Hung(0, 2), 1.0)
  {
    hide ColumnGap, Way;
    NothingInto(p.rows, 1);
    NothingInto(p.rows, 2);
    assert Pitch(p, 0) == 328.0 && Pitch(p, 1) == 328.0;
    OnePitch(p, 0);
    assert HasMark(p, Hung(0, 0)) && !Keeps(p, 0, 0);
    assert !BranchKeeps(p, 0);
    assert RunsBack(p, 0, 1, 2);
    assert Way(p, 0, 2) == 656.0 by { TwoPitches(p); }
  }

  lemma TwoPitches(p: Plan)
    ensures Way(p, 0, 2) == Pitch(p, 0) + Pitch(p, 1)
  {
    hide Pitch;
    assert Way(p, 0, 1) == Pitch(p, 0);
  }

  lemma NoLanes(fonts: Fonts)
    requires Known(FoundIt())
    ensures LanesFit(Look(fonts), FoundIt())
  {
    hide LooksOf, GraphOf, Nodes;
    assert LanesOf(Look(fonts), FoundIt()) == [];
  }

  /** So layoutSpine takes the flow, and in every drawing of it two nodes overlap. */
  lemma LongDrawnOver(fonts: Fonts)
    requires Budgeted(fonts)
    ensures IrOk(Asking()) && Spine(Asking()) == Some(FoundIt()) && Known(FoundIt()) && LanesFit(Look(fonts), FoundIt())
    ensures forall d :: Drawn(Look(fonts), FoundIt(), d) ==> !NodesApart(FoundIt(), d)
  {
    hide Budgeted, FoundIt, Asking, Look, PlanOf, Drawn, NodesApart, AllKeep, Known, LanesFit, IrOk, Spine, Ready;
    hide BranchTogether, RunsBehind;
    SpineIs();
    NoLanes(fonts);
    PlanIs(fonts);
    BranchOverruns(PlanOf(Look(fonts), FoundIt()));
    forall d | Drawn(Look(fonts), FoundIt(), d) ensures !NodesApart(FoundIt(), d) {
      NodesApartIffKeep(Look(fonts), FoundIt(), d);
    }
  }

  /** And the routes of its edges d to e and e to f run on top of each other. */
  lemma LongRunsOn(fonts: Fonts, d: Drawing)
    requires Budgeted(fonts) && Known(FoundIt()) && Drawn(Look(fonts), FoundIt(), d)
    ensures 4 in d.routes && 5 in d.routes && RoutesTogether(d.routes[4].points, d.routes[5].points)
  {
    hide Budgeted, Asking, Look, PlanOf, Drawn, AllKeep, Known, BranchTogether, Ready, GraphOf, RoutesTogether, OrderOf;
    hide RunsBehind;
    PlanIs(fonts);
    BranchOverruns(PlanOf(Look(fonts), FoundIt()));
    LinksAt(OrderOf(Look(fonts), FoundIt()));
    RoutesApart(Look(fonts), FoundIt(), d, Along(Out(0, 1)), 4, Along(Out(0, 2)), 5);
  }

  /** And that of d to e passes behind f, which it does not join. */
  lemma LongPassesBehind(fonts: Fonts, d: Drawing)
    requires Budgeted(fonts) && Known(FoundIt()) && Drawn(Look(fonts), FoundIt(), d)
    ensures 4 in d.routes && "f" in d.boxes && !PassesNone(d.routes[4].points, Inset(d.boxes["f"], 1.0))
  {
    hide Budgeted, Asking, Look, PlanOf, Drawn, AllKeep, Known, BranchTogether, Ready, GraphOf, OrderOf, RunsBehind;
    hide PassesNone, Inset;
    PlanIs(fonts);
    BranchOverruns(PlanOf(Look(fonts), FoundIt()));
    LinksAt(OrderOf(Look(fonts), FoundIt()));
    RoutesPass(Look(fonts), FoundIt(), d, Along(Out(0, 1)), 4, Hung(0, 2), "f", 1.0);
  }

  lemma LinksAt(order: seq<SpineLanes.Lane>)
    ensures EdgeAt(FoundIt(), order, Along(Out(0, 1)), 4) && EdgeAt(FoundIt(), order, Along(Out(0, 2)), 5)
    ensures NodeAt(FoundIt(), Hung(0, 2), "f")
  {
    hide GraphOf;
  }
}
