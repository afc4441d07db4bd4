// A flowchart to lay out, and what its boxes look like: the parts of
// ui/src/diagramLayout.ts every flow layout shares.
module Flow {
  import opened Text
  import opened Geometry
  import opened DiagramTheme

  datatype Shape = Pill | Step | Decision | Start | Stop
  datatype Direction = TopDown | LeftRight
  datatype FlowHead = HeadAtEnd | HeadAtBoth | NoHeads
  datatype FlowNode = FlowNode(id: string, text: string, shape: Shape, zone: Option<string>)
  datatype FlowEdge = FlowEdge(from: string, to: string, text: string, dashed: bool, head: FlowHead)
  datatype Zone = Zone(id: string, title: string)
  datatype FlowIR = FlowIR(direction: Direction, nodes: seq<FlowNode>, edges: seq<FlowEdge>, zones: seq<Zone>)

  /** The text measure, and which labels are set as a name from the code. */
  datatype Fonts = Fonts(adv: Advance, code: string -> bool)

  const PAD_X := 16.0
  const STEP_GAP := 24
  const LABEL_GAP := 8
  const LABEL_LINE := 15
  const LABEL_MAX := 180.0
  const LANE := 12
  const LINE_STEP := 18

  /** A length in px rounded up to a multiple. */
  function UpTo(v: real, step: nat): int
    requires step > 0
  {
    -((-(v / step as real)).Floor) * step
  }

  /** up4 and up8 of a whole number of px. */
  function Up4(n: int): (r: int)
    ensures n <= r < n + 4 && r % 4 == 0
  {
    (n + 3) / 4 * 4
  }

  function Up8(n: int): (r: int)
    ensures n <= r < n + 8 && r % 8 == 0
  {
    (n + 7) / 8 * 8
  }

  datatype FlowStyle = FlowStyle(face: Face, size: Size, bold: bool)

  function StyleOf(fonts: Fonts, n: FlowNode): FlowStyle {
    if fonts.code(n.text) then FlowStyle(Mono, RAMP_CODE, false)
    else if n.shape == Pill then FlowStyle(Sans, RAMP_BOLD, true)
    else FlowStyle(Sans, RAMP_TEXT, false)
  }

  /** The widest of some runs of text, none narrower than 0. */
  function WidestRun(adv: Advance, runs: seq<string>, size: Size, face: Face): (w: real)
    ensures w >= 0.0
    ensures forall run <- runs :: TextWidth(adv, run, size, face) <= w
  {
    if runs == [] then 0.0
    else Max(TextWidth(adv, runs[0], size, face), WidestRun(adv, runs[1..], size, face))
  }

  /** The runs between white space: what wrapping cannot shorten. */
  function Words(s: string): seq<string> {
    if s == "" then [""]
    else
      var rest := Words(s[1..]);
      if IsSpace(s[0]) then [""] + rest else [[s[0]] + rest[0]] + rest[1..]
  }

  function MaxI(a: int, b: int): int {
    if a >= b then a else b
  }

  function MinI(a: int, b: int): int {
    if a <= b then a else b
  }

  function WidestLabel(fonts: Fonts, nodes: seq<FlowNode>): (w: real)
    ensures w >= 0.0
  {
    if nodes == [] then 0.0
    else
      var s := StyleOf(fonts, nodes[0]);
      Max(WidestRun(fonts.adv, Split(nodes[0].text, '\n'), s.size, s.face), WidestLabel(fonts, nodes[1..]))
  }

  function LongestWord(fonts: Fonts, nodes: seq<FlowNode>): (w: real)
    ensures w >= 0.0
  {
    if nodes == [] then 0.0
    else
      var s := StyleOf(fonts, nodes[0]);
      Max(WidestRun(fonts.adv, Words(nodes[0].text), s.size, s.face), LongestWord(fonts, nodes[1..]))
  }

  /** A common width for the boxes of some nodes. */
  function BoxWidth(fonts: Fonts, nodes: seq<FlowNode>, min: int, max: int): (w: int)
    requires min <= max
    ensures w >= min
  {
    MaxI(MinI(max, MaxI(min, UpTo(WidestLabel(fonts, nodes) + 2.0 * PAD_X, 8))),
         UpTo(LongestWord(fonts, nodes) + 2.0 * PAD_X, 8))
  }

  function NodeLines(fonts: Fonts, n: FlowNode, w: int): (lines: seq<string>)
    ensures |lines| >= 1
  {
    var s := StyleOf(fonts, n);
    Wrapped(fonts.adv, n.text, w as real - 2.0 * PAD_X, s.size, s.face)
  }

  /** lay(): a box's height at a width, from how many lines its label takes. */
  function BoxHeight(lines: nat, outcome: bool): (h: int)
    requires lines >= 1
    ensures h >= (if outcome then 36 else 40) && h % 4 == 0
  {
    Up4((if outcome then 36 else 40) + (lines - 1) * LINE_STEP)
  }

  /** An arrow's label, wrapped and measured. */
  datatype LabelSize = LabelSize(lines: seq<string>, w: int, h: int)

  function LabelBox(fonts: Fonts, text: string): (l: LabelSize)
    ensures l.h >= LABEL_LINE && l.w >= 0
  {
    var lines := Wrapped(fonts.adv, text, LABEL_MAX, RAMP_LABEL, Mono);
    var tw := WidestRun(fonts.adv, lines, RAMP_LABEL, Mono);
    LabelSize(lines, -((-tw).Floor), |lines| * LABEL_LINE)
  }

  function LabelOf(fonts: Fonts, e: FlowEdge): Option<LabelSize> {
    if e.text != "" then Some(LabelBox(fonts, e.text)) else None
  }

  function LabelHeight(fonts: Fonts, e: FlowEdge): (h: int)
    ensures h >= 0
  {
    if e.text != "" then LabelBox(fonts, e.text).h else 0
  }

  // ---- nodes and edges by id ----

  predicate DistinctIds(nodes: seq<FlowNode>) {
    forall i, j :: 0 <= i < j < |nodes| ==> nodes[i].id != nodes[j].id
  }

  predicate HasNode(nodes: seq<FlowNode>, id: string) {
    exists i :: 0 <= i < |nodes| && nodes[i].id == id
  }

  /** Where a node stands in a list. */
  function IndexOf(nodes: seq<FlowNode>, id: string): (i: nat)
    requires HasNode(nodes, id)
    ensures i < |nodes| && nodes[i].id == id
  {
    var last := |nodes| - 1;
    if nodes[last].id == id then last
    else
      assert HasNode(nodes[..last], id) by {
        var k :| 0 <= k < |nodes| && nodes[k].id == id;
        assert nodes[..last][k].id == id;
      }
      IndexOf(nodes[..last], id)
  }

  lemma IndexUnique(nodes: seq<FlowNode>, i: nat)
    requires DistinctIds(nodes) && i < |nodes|
    ensures HasNode(nodes, nodes[i].id) && IndexOf(nodes, nodes[i].id) == i
  {
    var k := IndexOf(nodes, nodes[i].id);
  }

  /** The edges into, or out of, a node, in the order written. */
  function Into(edges: seq<FlowEdge>, id: string): (into: seq<nat>)
    ensures forall i <- into :: i < |edges| && edges[i].to == id
    ensures forall i :: 0 <= i < |edges| && edges[i].to == id ==> i in into
    ensures forall j, k :: 0 <= j < k < |into| ==> into[j] < into[k]
  {
    if edges == [] then []
    else
      var last := |edges| - 1;
      var init := Into(edges[..last], id);
      assert forall k :: 0 <= k < |init| ==> init[k] in init && init[k] < last;
      init + if edges[last].to == id then [last] else []
  }

  function OutOf(edges: seq<FlowEdge>, id: string): (out: seq<nat>)
    ensures forall i <- out :: i < |edges| && edges[i].from == id
    ensures forall i :: 0 <= i < |edges| && edges[i].from == id ==> i in out
    ensures forall j, k :: 0 <= j < k < |out| ==> out[j] < out[k]
  {
    if edges == [] then []
    else
      var last := |edges| - 1;
      var init := OutOf(edges[..last], id);
      assert forall k :: 0 <= k < |init| ==> init[k] in init && init[k] < last;
      init + if edges[last].from == id then [last] else []
  }

  // ---- what is out of a node, by what it must be ----

  lemma {:induction false} AscendingSame(a: seq<nat>, b: seq<nat>)
    requires forall j, k :: 0 <= j < k < |a| ==> a[j] < a[k]
    requires forall j, k :: 0 <= j < k < |b| ==> b[j] < b[k]
    requires forall x: nat :: x in a <==> x in b
    ensures a == b
  {
    assert |b| == 0 || b[0] in b;
    if a != [] {
      var m, n := |a| - 1, |b| - 1;
      assert a[m] in b && b[n] in a;
      assert a[m] == b[n];
      forall x: nat ensures x in a[..m] <==> x in b[..n] {
        assert x in a[..m] ==> x in a && x != a[m];
        assert x in b[..n] ==> x in b && x != b[n];
      }
      AscendingSame(a[..m], b[..n]);
      assert a == a[..m] + [a[m]] && b == b[..n] + [b[n]];
    }
  }

  lemma OutIs(edges: seq<FlowEdge>, id: string, out: seq<nat>)
    requires forall j, k :: 0 <= j < k < |out| ==> out[j] < out[k]
    requires forall i: nat :: i in out <==> i < |edges| && edges[i].from == id
    ensures OutOf(edges, id) == out
  {
    AscendingSame(OutOf(edges, id), out);
  }

  lemma IntoIs(edges: seq<FlowEdge>, id: string, into: seq<nat>)
    requires forall j, k :: 0 <= j < k < |into| ==> into[j] < into[k]
    requires forall i: nat :: i in into <==> i < |edges| && edges[i].to == id
    ensures Into(edges, id) == into
  {
    AscendingSame(Into(edges, id), into);
  }
}
