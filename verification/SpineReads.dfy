// What a drawing with a spine says and how it measures it: each node's box by its own label and
// shape, the widths they share, the rows and columns no further apart than they need be, each
// route's label its edge's (layoutSpine, ui/src/diagramLayout.ts).
module SpineReads {
  import opened Counting
  import opened Geometry
  import opened DiagramTheme
  import opened Flow
  import opened FlowSizes
  import opened SpinePath
  import opened SpineSizes
  import opened SpineRows
  import opened SpineLanes
  import opened SpineDrawn
  import opened SpineLayout
  import opened SpineLooks
  import opened SpinePlacing
  import opened SpineTheorem
  import SpineShape
  import Sorting

  // ---- which nodes share a width ----

  /** The node an id names. */
  predicate Names(ir: FlowIR, id: string, n: FlowNode) {
    HasNode(ir.nodes, id) && ir.nodes[IndexOf(ir.nodes, id)] == n
  }

  /** A node of the path that is no decision. */
  ghost predicate PathPlain(ir: FlowIR, f: Found, n: FlowNode) {
    !n.shape.Decision? && exists id :: id in f.path && Names(ir, id, n)
  }

  /** A node some branch holds. */
  ghost predicate OffPath(ir: FlowIR, f: Found, n: FlowNode) {
    exists id, k, hung :: hung in f.path && SpineShape.Holds(f.shape, hung, k, id) && Names(ir, id, n)
  }

  lemma {:induction false} NodesNamedAre(ir: FlowIR, ids: seq<string>)
    ensures forall n :: n in NodesNamed(ir, ids) <==> exists id :: id in ids && Names(ir, id, n)
  {
    hide NodeNamed;
    if ids != [] {
      NodesNamedAre(ir, ids[1..]);
      NamedIs(ir, ids[0]);
      assert ids == [ids[0]] + ids[1..];
      forall n ensures n in NodesNamed(ir, ids) <==> exists id :: id in ids && Names(ir, id, n) {
        if n in NodesNamed(ir, ids) {
          if n in NodesNamed(ir, ids[1..]) {
            var id :| id in ids[1..] && Names(ir, id, n);
            assert id in ids;
          } else {
            assert Names(ir, ids[0], n);
          }
        }
        if id :| id in ids && Names(ir, id, n) {
          assert id == ids[0] || id in ids[1..];
        }
      }
    }
  }

  lemma NamedIs(ir: FlowIR, id: string)
    ensures forall n :: NodeNamed(ir, id) == Some(n) <==> Names(ir, id, n)
  {
  }

  lemma {:induction false} PlainOnes(nodes: seq<FlowNode>)
    ensures forall n :: n in WithoutDecisions(nodes) <==> n in nodes && !n.shape.Decision?
  {
    if nodes != [] {
      PlainOnes(nodes[1..]);
      assert nodes == [nodes[0]] + nodes[1..];
    }
  }

  lemma {:induction false} SideOnes(shape: SpineShape.Shape, path: seq<string>)
    ensures forall id :: id in SideIds(shape, path) <==> exists k, hung ::
              hung in path && SpineShape.Holds(shape, hung, k, id)
  {
    if path != [] {
      var rest := path[1..];
      SideOnes(shape, rest);
      assert path == [path[0]] + rest;
      forall id
        ensures id in SideIds(shape, path) <==> exists k, hung :: hung in path && SpineShape.Holds(shape, hung, k, id)
      {
        if id in SideIds(shape, path) && id !in SideIds(shape, rest) {
          var nodes := shape.chains[path[0]].nodes;
          var k :| 0 <= k < |nodes| && nodes[k] == id;
          assert SpineShape.Holds(shape, path[0], k, id);
        }
        if k, hung :| hung in path && SpineShape.Holds(shape, hung, k, id) {
          assert hung == path[0] || hung in rest;
        }
      }
    }
  }

  /** The path's plain boxes share a width, between 200 and 240 or what the longest word takes;
      the branches' boxes theirs, up to 280. */
  lemma WidthsShared(fonts: Fonts, ir: FlowIR, f: Found) returns (path: seq<FlowNode>, side: seq<FlowNode>)
    ensures forall n :: n in path <==> PathPlain(ir, f, n)
    ensures forall n :: n in side <==> OffPath(ir, f, n)
    ensures SharedBy(fonts, path, 200, 240, PathWidth(fonts, ir, f))
    ensures SharedBy(fonts, side, 200, 280, SideWidth(fonts, ir, f))
  {
    hide SharedBy, BoxWidth, NodesNamed, WithoutDecisions, SideIds, Names, SpineShape.Holds;
    path := WithoutDecisions(NodesNamed(ir, f.path));
    side := NodesNamed(ir, SideIds(f.shape, f.path));
    NodesNamedAre(ir, f.path);
    PlainOnes(NodesNamed(ir, f.path));
    NodesNamedAre(ir, SideIds(f.shape, f.path));
    SideOnes(f.shape, f.path);
    SharedWidth(fonts, path, 200, 240);
    SharedWidth(fonts, side, 200, 280);
    forall n ensures n in side <==> OffPath(ir, f, n) {
      if OffPath(ir, f, n) {
        var id, k, hung :| hung in f.path && SpineShape.Holds(f.shape, hung, k, id) && Names(ir, id, n);
        assert id in SideIds(f.shape, f.path);
      }
      if n in side {
        var id :| id in SideIds(f.shape, f.path) && Names(ir, id, n);
        var k, hung :| hung in f.path && SpineShape.Holds(f.shape, hung, k, id);
      }
    }
  }

  // ---- boxes ----

  /** A diamond's lines are its label, wrapped to some room. */
  ghost predicate Wraps(adv: Advance, c: Caption, lines: seq<string>) {
    exists room: real :: lines == Wrapped(adv, c.text, room, c.size, c.face)
  }

  lemma {:induction false} FitWraps(adv: Advance, c: Caption, w: int, h: int, k: nat)
    requires h > 0 && FitFrom(adv, c, w, h, k).Some?
    ensures Wraps(adv, c, FitFrom(adv, c, w, h, k).value)
    decreases MostLines(c.text) + 1 - k
  {
    hide Wrapped, RoomFor, NoWider, MostLines;
    if FitsIn(adv, c, w, h, k) {
      assert LinesIn(adv, c, w, h, k) == Wrapped(adv, c.text, RoomFor(w, h, k), c.size, c.face);
    } else {
      FitWraps(adv, c, w, h, k + 1);
    }
  }

  lemma {:induction false} HeightWraps(adv: Advance, c: Caption, w: int, h: int)
    requires h > 0 && FirstHeight(adv, c, w, h).Some?
    ensures Wraps(adv, c, FirstHeight(adv, c, w, h).value.lines)
    decreases TallestDiamond(c.text) - h
  {
    hide Wraps, FitFrom, TallestDiamond;
    if FitFrom(adv, c, w, h, 1).Some? {
      FitWraps(adv, c, w, h, 1);
    } else {
      HeightWraps(adv, c, w, h + 4);
    }
  }

  lemma {:induction false} WidthWraps(adv: Advance, c: Caption, w: int, widest: int)
    ensures Wraps(adv, c, FirstWidth(adv, c, w, widest).lines)
    decreases widest - w
  {
    hide FirstHeight, TallestDiamond, Wrapped;
    if w <= widest {
      if FirstHeight(adv, c, w, 52).Some? {
        HeightWraps(adv, c, w, 52);
      } else {
        WidthWraps(adv, c, w + 16, widest);
      }
    }
  }

  /** A node's box, by its shape and its own label: a dot; a small diamond with no text, or one
      that wraps its label, 20 narrower than its neighbours or wider; a plain box with its label
      wrapped to the shared width, as tall as its lines. */
  ghost predicate NodeReads(fonts: Fonts, n: FlowNode, onPath: bool, w: int, d: Dim) {
    match n.shape
    case Start => d == Dim([], 16, 16)
    case Stop => d == Dim([], 20, 20)
    case Decision =>
      if n.text == "" then d == Dim([], 28, 28)
      else
        Wraps(fonts.adv, Captioned(fonts, n), d.lines) && w - 20 <= d.w <= w + 460 && (d.w - w + 20) % 16 == 0
    case _ =>
      && d.w == w && d.lines == SetLines(fonts, n, w as real - 32.0)
      && HoldsLines(d.h, if onPath then 40 else 36, |d.lines|)
  }

  /** How a decision's label is set. */
  function Captioned(fonts: Fonts, n: FlowNode): Caption {
    if fonts.code(n.text) then Caption(n.text, RAMP_CODE, Mono) else Caption(n.text, RAMP_TEXT, Sans)
  }

  lemma ShapedReads(fonts: Fonts, n: FlowNode, onPath: bool, w: int)
    requires w >= 200
    ensures NodeReads(fonts, n, onPath, w, ShapedOf(fonts, n, !onPath, w))
  {
    hide NodeLines, FirstWidth, Wraps, SetLines, BoxHeight, HoldsLines;
    PlainBox(fonts, n, w, !onPath);
    if n.shape.Decision? && n.text != "" {
      assert CaptionOf(fonts, n) == Captioned(fonts, n);
      WidthWraps(fonts.adv, CaptionOf(fonts, n), w - 20, w + 460);
      WidthsTried(fonts.adv, CaptionOf(fonts, n), w - 20, w + 460);
    }
  }

  lemma {:induction false} WidthsTried(adv: Advance, c: Caption, w: int, widest: int)
    requires w <= widest && (widest - w) % 16 == 0
    ensures var d := FirstWidth(adv, c, w, widest); w <= d.w <= widest && (d.w - w) % 16 == 0
    decreases widest - w
  {
    hide FirstHeight, TallestDiamond, Wrapped;
    if FirstHeight(adv, c, w, 52).Some? {
      HeightKeepsWidth(adv, c, w, 52);
    } else if w < widest {
      WidthsTried(adv, c, w + 16, widest);
    }
  }

  lemma {:induction false} HeightKeepsWidth(adv: Advance, c: Caption, w: int, h: int)
    requires h > 0 && FirstHeight(adv, c, w, h).Some?
    ensures FirstHeight(adv, c, w, h).value.w == w
    decreases TallestDiamond(c.text) - h
  {
    hide FitFrom, TallestDiamond;
    if FitFrom(adv, c, w, h, 1).None? {
      HeightKeepsWidth(adv, c, w, h + 4);
    }
  }

  /** Every node of a drawing has the box its own label and shape ask for. */
  lemma NodesRead(fonts: Fonts, ir: FlowIR, f: Found, d: Drawing, id: string, n: FlowNode)
    requires Drawn(LooksOf(fonts, ir, f), f, d) && id in f.g.nodes && Names(ir, id, n)
    ensures id in d.boxes
    ensures var size := SizeOf(fonts, ir, f, id);
            && d.boxes[id].w == size.w as real && d.boxes[id].h == size.h as real
            && NodeReads(fonts, n, id in f.path,
                         if id in f.path then PathWidth(fonts, ir, f) else SideWidth(fonts, ir, f), size)
  {
    hide Ready, Known, ShapedOf, BoxWidth, OnRows, LanesFit, NodeReads, PathWidth, SideWidth, Names, NodeAt;
    var looks := LooksOf(fonts, ir, f);
    var m := MarkFor(f, id);
    BoxSized(looks, f, m, id);
    NamedIs(ir, id);
    ShapedReads(fonts, n, id in f.path, if id in f.path then PathWidth(fonts, ir, f) else SideWidth(fonts, ir, f));
  }

  lemma BoxSized(looks: Looks, f: Found, m: Mark, id: string)
    requires Known(f) && NodeAt(f, m, id)
    ensures HasMark(PlanOf(looks, f), m)
    ensures BoxOf(PlanOf(looks, f), m).w == looks.w(id) && BoxOf(PlanOf(looks, f), m).h == looks.h(id)
  {
    hide Mid, ColumnX, Right;
    MarkHolds(looks, f, m);
  }

  // ---- labels ----

  /** A route bears a label exactly when its edge says something, and the label measures what
      the text takes; a lane's may stand on end. */
  lemma LabelsRead(fonts: Fonts, ir: FlowIR, f: Found, d: Drawing, l: Line, i: nat)
    requires var looks := LooksOf(fonts, ir, f); Drawn(looks, f, d) && EdgeAt(f, OrderOf(looks, f), l, i)
    requires f.g.edges == ir.edges
    ensures i < |ir.edges| && i in d.routes
    ensures d.routes[i].caption.Some? <==> ir.edges[i].text != ""
    ensures d.routes[i].caption.Some? ==>
              var t, r := LabelBox(fonts, ir.edges[i].text), d.routes[i].caption.value;
              && t.lines == Wrapped(fonts.adv, ir.edges[i].text, 180.0, RAMP_LABEL, Mono) && t.h == 15 * |t.lines|
              && ((r.w == t.w as real && r.h == t.h as real)
                  || (l.Beside? && |t.lines| == 1 && r.w == t.h as real && r.h == t.w as real))
  {
    hide Ready, LabelBox, Known, OnRows, LanesFit, PlanOf, OrderOf, LooksOf, EdgeAt, LooksOk, Wrapped;
    var looks := LooksOf(fonts, ir, f);
    RouteDrawn(looks, f, d, l, i);
    LineEnds(looks, f, l, i);
    LabelMeasured(fonts, ir.edges[i].text);
    TextIs(fonts, ir, f, i);
    CaptionIs(looks, f, l, i);
  }

  lemma TextIs(fonts: Fonts, ir: FlowIR, f: Found, i: nat)
    requires i < |ir.edges|
    ensures LooksOf(fonts, ir, f).text(i)
            == if ir.edges[i].text != "" then Some(LabelBox(fonts, ir.edges[i].text)) else None
  {
    hide LabelBox;
  }

  lemma CaptionIs(looks: Looks, f: Found, l: Line, i: nat)
    requires Ready(f) && Known(f) && EdgeAt(f, OrderOf(looks, f), l, i)
    requires OnRows(PlanOf(looks, f), OrderOf(looks, f)) && HasLine(PlanOf(looks, f), OrderOf(looks, f), l)
    ensures var c := LineRoute(PlanOf(looks, f), OrderOf(looks, f), l).caption;
            && (c.Some? <==> looks.text(i).Some?)
            && (c.Some? ==>
                  var t := looks.text(i).value;
                  || (c.value.w == t.w as real && c.value.h == t.h as real)
                  || (l.Beside? && |t.lines| == 1 && c.value.w == t.h as real && c.value.h == t.w as real))
  {
    hide Ready, Mid, ColumnX, Right, ArrowPoints, LaneX, Port, OrderOf, Top;
    match l
    case Along(Down(r)) => RowIs(looks, f, r);
    case Along(Out(r, k)) => RowIs(looks, f, r);
    case Beside(k) => LaneText(looks, f, k);
  }

  lemma LaneText(looks: Looks, f: Found, k: nat)
    requires Known(f) && k < |OrderOf(looks, f)|
    ensures OrderOf(looks, f)[k].text == looks.text(OrderOf(looks, f)[k].edge)
  {
    var lanes := LanesOf(looks, f);
    NestedKeeps(SideOf(PlanOf(looks, f).rows).mids, lanes);
    hide Nested, PlanOf, LanesOf;
    assert OrderOf(looks, f)[k] in lanes;
    LaneTexts(looks, f);
  }

  lemma LaneTexts(looks: Looks, f: Found)
    requires Known(f)
    ensures forall l <- LanesOf(looks, f) :: l.text == looks.text(l.edge)
  {
  }

  // ---- rows ----

  lemma {:induction false} TallestIs(links: seq<Link>)
    requires forall l <- links :: l.h >= 0.0
    ensures links != [] ==> exists k :: 0 <= k < |links| && links[k].h == Tallest(links)
  {
    assert links != [] ==> links[0] in links && links[0].h >= 0.0;
    if links != [] && links[0].h != Tallest(links) {
      TallestIs(links[1..]);
      var k :| 0 <= k < |links[1..]| && links[1..][k].h == Tallest(links[1..]);
      assert links[k + 1] == links[1..][k];
    }
  }

  lemma {:induction false} AboveIs(links: seq<Link>)
    ensures Above(links) == 0.0
            || exists k ::
                 0 <= k < |links| && links[k].text.Some? && (links[k].text.value.h + 8) as real == Above(links)
  {
    if links != [] {
      AboveIs(links[1..]);
      if Above(links) == Above(links[1..]) && Above(links) != 0.0 {
        var k :| 0 <= k < |links[1..]| && links[1..][k].text.Some?
                 && (links[1..][k].text.value.h + 8) as real == Above(links[1..]);
        assert links[k + 1] == links[1..][k];
      }
    }
  }

  /** The foot of the lowest box of a row. */
  ghost predicate RowFoot(p: Plan, r: nat, y: real)
    requires r < |p.rows|
  {
    && (forall m :: HasMark(p, m) && m.r == r ==> BoxOf(p, m).y + BoxOf(p, m).h <= y)
    && exists m :: HasMark(p, m) && m.r == r && BoxOf(p, m).y + BoxOf(p, m).h == y
  }

  /** The r-th row could have its middle there: under the row above by 24, by its step's label and
      12 to a multiple of 4, and, above the middle, by each label of its branch and 16. */
  predicate RowFits(p: Plan, r: nat, foot: real, mid: real)
    requires 0 < r < |p.rows|
  {
    && mid - RowHeight(p.rows[r]) / 2.0 >= foot + 24.0
    && (p.rows[r - 1].step.Some? ==>
          mid - RowHeight(p.rows[r]) / 2.0 >= foot + Up4(p.rows[r - 1].step.value.h + 12) as real)
    && mid >= foot + 8.0
    && forall k :: 0 <= k < |p.rows[r].chain| && p.rows[r].chain[k].text.Some? ==>
         mid >= foot + (p.rows[r].chain[k].text.value.h + 16) as real
  }

  lemma FootIs(p: Plan, r: nat)
    requires PlanOk(p) && r < |p.rows|
    ensures RowFoot(p, r, Top(p.rows, r) + RowHeight(p.rows[r]))
  {
    hide BoxOf, Top, RowHeight;
    forall m | HasMark(p, m) && m.r == r
      ensures BoxOf(p, m).y + BoxOf(p, m).h <= Top(p.rows, r) + RowHeight(p.rows[r])
    {
      BoxInRow(p, m);
    }
    var m := TallestMark(p, r);
    assert BoxOf(p, m).y + BoxOf(p, m).h == Top(p.rows, r) + RowHeight(p.rows[r]);
  }

  lemma TallestMark(p: Plan, r: nat) returns (m: Mark)
    requires PlanOk(p) && r < |p.rows|
    ensures HasMark(p, m) && m.r == r && BoxOf(p, m).y + BoxOf(p, m).h == Top(p.rows, r) + RowHeight(p.rows[r])
  {
    hide Top, ColumnX, Right;
    var row := p.rows[r];
    assert RowOk(row) by { assert row in p.rows; }
    TallestIs(row.chain);
    m := OnPath(r);
    if RowHeight(row) != row.h {
      var k :| 0 <= k < |row.chain| && row.chain[k].h == Tallest(row.chain);
      m := Hung(r, k);
    }
  }

  /** Rows stand as high as they fit: the first at the top, each next one no lower than the row
      above and the labels between ask. */
  lemma RowsHighest(p: Plan, r: nat, foot: real)
    requires PlanOk(p) && r < |p.rows| && (r > 0 ==> RowFoot(p, r - 1, foot))
    ensures r == 0 ==> Mid(p.rows, 0) == RowHeight(p.rows[0]) / 2.0
    ensures r > 0 ==> RowFits(p, r, foot, Mid(p.rows, r)) && forall y: real :: y < Mid(p.rows, r) ==>
              !RowFits(p, r, foot, y)
  {
    hide BoxOf, RowHeight, RowFoot;
    if r > 0 {
      FootIs(p, r - 1);
      OneFoot(p, r - 1, foot, Top(p.rows, r - 1) + RowHeight(p.rows[r - 1]));
      AboveIs(p.rows[r].chain);
      assert forall k :: 0 <= k < |p.rows[r].chain| ==> p.rows[r].chain[k] in p.rows[r].chain;
      assert RowHeight(p.rows[r]) >= 16.0 by { RowOf(p, OnPath(r)); }
    }
  }

  lemma OneFoot(p: Plan, r: nat, a: real, b: real)
    requires r < |p.rows| && RowFoot(p, r, a) && RowFoot(p, r, b)
    ensures a == b
  {
    hide BoxOf;
    var m :| HasMark(p, m) && m.r == r && BoxOf(p, m).y + BoxOf(p, m).h == a;
    var n :| HasMark(p, n) && n.r == r && BoxOf(p, n).y + BoxOf(p, n).h == b;
    assert a <= b && b <= a;
  }

  // ---- columns ----

  lemma {:induction false} WidestIntoIs(rows: seq<Row>, k: nat)
    ensures WidestInto(rows, k) == 0
            || exists r :: 0 <= r < |rows| && k < |rows[r].chain| && rows[r].chain[k].text.Some?
                           && rows[r].chain[k].text.value.w == WidestInto(rows, k)
  {
    if rows != [] {
      WidestIntoIs(rows[1..], k);
      if WidestInto(rows, k) == WidestInto(rows[1..], k) && WidestInto(rows, k) != 0 {
        var r :| 0 <= r < |rows[1..]| && k < |rows[1..][r].chain| && rows[1..][r].chain[k].text.Some?
                 && rows[1..][r].chain[k].text.value.w == WidestInto(rows[1..], k);
        assert rows[r + 1] == rows[1..][r];
      }
    }
  }

  /** Some arrow into the column bears a label that, with 48, takes this much, to a multiple of
      8. */
  ghost predicate LabelTakes(p: Plan, k: nat, gap: real) {
    exists r :: 0 <= r < |p.rows| && k < |p.rows[r].chain| && p.rows[r].chain[k].text.Some?
                && (p.rows[r].chain[k].text.value.w + 48) as real <= gap < (p.rows[r].chain[k].text.value.w
                                                                            + 56) as real
  }

  /** Columns stand as near as they may: the first 96 past the widest box of the path, each next
      48 past the branches' width, or as far as the widest label into it takes. */
  lemma ColumnsNearest(p: Plan, k: nat, r: nat)
    requires PlanOk(p) && HasMark(p, Hung(r, k))
    ensures var least := if k == 0 then 96.0 else 48.0;
            var from := if k == 0 then Right(p.rows) else ColumnX(p.rows, p.sideW, Right(p.rows), k - 1) + p.sideW;
            var gap := BoxOf(p, Hung(r, k)).x - from;
            && gap >= least && (gap == least || LabelTakes(p, k, gap))
            && (p.rows[r].chain[k].text.Some? ==> gap >= (p.rows[r].chain[k].text.value.w + 48) as real)
  {
    hide Mid, Right;
    WidestIntoIs(p.rows, k);
    assert p.rows[r] in p.rows;
    GapTight(p, k);
    hide ColumnGap;
  }

  lemma GapTight(p: Plan, k: nat)
    ensures var gap := ColumnGap(p.rows, k); gap == (if k == 0 then 96.0 else 48.0) || LabelTakes(p, k, gap)
  {
    hide WidestInto;
    WidestIntoIs(p.rows, k);
  }

  /** And the path reaches as far right as its widest box. */
  lemma {:induction false} RightIs(rows: seq<Row>)
    requires rows != [] && forall r <- rows :: r.w >= 0.0
    ensures exists r :: 0 <= r < |rows| && rows[r].w / 2.0 == Right(rows)
  {
    assert rows[0] in rows && rows[0].w >= 0.0;
    if rows[0].w / 2.0 != Right(rows) {
      RightIs(rows[1..]);
      var r :| 0 <= r < |rows[1..]| && rows[1..][r].w / 2.0 == Right(rows[1..]);
      assert rows[r + 1] == rows[1..][r];
    }
  }

  // ---- lanes refused ----

  /** The j-th lane found leaves or enters the node. */
  predicate Touches(f: Found, id: string, j: nat) {
    && j < |f.shape.lanes| && f.shape.lanes[j] < |f.g.edges|
    && (f.g.edges[f.shape.lanes[j]].from == id || f.g.edges[f.shape.lanes[j]].to == id)
  }

  ghost predicate TwoTouch(f: Found, id: string) {
    exists j: nat, k: nat :: j < k && Touches(f, id, j) && Touches(f, id, k)
  }

  ghost predicate ThreeTouch(f: Found, id: string) {
    exists i: nat, j: nat, k: nat :: i < j < k && Touches(f, id, i) && Touches(f, id, j) && Touches(f, id, k)
  }

  /** The id names a decision or a dot. */
  ghost predicate OneCorner(ir: FlowIR, id: string) {
    exists n :: Names(ir, id, n) && (n.shape.Decision? || n.shape.Start? || n.shape.Stop?)
  }

  /** No box takes more than two lanes, nor a decision or a dot more than one. */
  ghost predicate LanesTaken(ir: FlowIR, f: Found) {
    forall r :: 0 <= r < |f.path| ==>
      !ThreeTouch(f, f.path[r]) && !(OneCorner(ir, f.path[r]) && TwoTouch(f, f.path[r]))
  }

  lemma MeetsIff(looks: Looks, f: Found, r: nat, j: nat)
    requires Ready(f) && Known(f) && r < |f.path| && j < |f.shape.lanes|
    ensures |LanesOf(looks, f)| == |f.shape.lanes|
    ensures Meets(LanesOf(looks, f)[j], r) <==> Touches(f, f.path[r], j)
  {
    hide SpineShape.ShapeOf, Joined;
    assert f.shape.lanes[j] in f.shape.lanes;
    var i := f.shape.lanes[j];
    assert LanesOf(looks, f)[j] == LaneAt(looks, f, i);
    PlaceIs(f, f.g.edges[i].from, r);
    PlaceIs(f, f.g.edges[i].to, r);
  }

  lemma PlaceIs(f: Found, id: string, r: nat)
    requires SpineShape.PathOk(f.g, f.path) && id in f.path && r < |f.path|
    ensures Position(f.path, id) == r <==> f.path[r] == id
  {
    var k := Position(f.path, id);
    if k < r {
      assert f.path[k] != f.path[r];
    } else if r < k {
      assert f.path[r] != f.path[k];
    }
  }

  lemma MeetingAt(lanes: seq<Lane>, r: int, j: nat) returns (a: nat)
    requires j < |lanes| && Meets(lanes[j], r)
    ensures a < |Meeting(lanes, r)| && Meeting(lanes, r)[a] == j
  {
    assert j in Meeting(lanes, r);
    a :| 0 <= a < |Meeting(lanes, r)| && Meeting(lanes, r)[a] == j;
  }

  lemma MeetingMeets(lanes: seq<Lane>, r: int, a: nat)
    requires a < |Meeting(lanes, r)|
    ensures Meeting(lanes, r)[a] < |lanes| && Meets(lanes[Meeting(lanes, r)[a]], r)
  {
    assert Meeting(lanes, r)[a] in Meeting(lanes, r);
  }

  lemma RowTwo(looks: Looks, f: Found, r: nat)
    requires Ready(f) && Known(f) && r < |f.path|
    ensures |Meeting(LanesOf(looks, f), r)| >= 2 <==> TwoTouch(f, f.path[r])
  {
    hide Ready, Known, Meeting, Meets, LanesOf, Touches;
    var lanes, id := LanesOf(looks, f), f.path[r];
    assert |lanes| == |f.shape.lanes| by { LaneCount(looks, f); }
    var at := Meeting(lanes, r);
    if |at| >= 2 {
      MeetingMeets(lanes, r, 0);
      MeetingMeets(lanes, r, 1);
      MeetsIff(looks, f, r, at[0]);
      MeetsIff(looks, f, r, at[1]);
    }
    if j: nat, k: nat :| j < k && Touches(f, id, j) && Touches(f, id, k) {
      var a := TouchAt(looks, f, r, j);
      var b := TouchAt(looks, f, r, k);
    }
  }

  lemma RowThree(looks: Looks, f: Found, r: nat)
    requires Ready(f) && Known(f) && r < |f.path|
    ensures |Meeting(LanesOf(looks, f), r)| >= 3 <==> ThreeTouch(f, f.path[r])
  {
    hide Ready, Known, Meeting, Meets, LanesOf, Touches;
    var lanes, id := LanesOf(looks, f), f.path[r];
    assert |lanes| == |f.shape.lanes| by { LaneCount(looks, f); }
    var at := Meeting(lanes, r);
    if |at| >= 3 {
      MeetingMeets(lanes, r, 0);
      MeetingMeets(lanes, r, 1);
      MeetingMeets(lanes, r, 2);
      MeetsIff(looks, f, r, at[0]);
      MeetsIff(looks, f, r, at[1]);
      MeetsIff(looks, f, r, at[2]);
    }
    if i: nat, j: nat, k: nat :| i < j < k && Touches(f, id, i) && Touches(f, id, j) && Touches(f, id, k) {
      var a := TouchAt(looks, f, r, i);
      var b := TouchAt(looks, f, r, j);
      var c := TouchAt(looks, f, r, k);
    }
  }

  lemma LaneCount(looks: Looks, f: Found)
    requires Known(f)
    ensures |LanesOf(looks, f)| == |f.shape.lanes|
  {
  }

  lemma TouchAt(looks: Looks, f: Found, r: nat, j: nat) returns (a: nat)
    requires Ready(f) && Known(f) && r < |f.path| && Touches(f, f.path[r], j)
    ensures a < |Meeting(LanesOf(looks, f), r)| && Meeting(LanesOf(looks, f), r)[a] == j
  {
    MeetsIff(looks, f, r, j);
    hide Ready, Known, Meeting, Meets, LanesOf;
    a := MeetingAt(LanesOf(looks, f), r, j);
  }

  lemma SingleIs(ir: FlowIR, id: string)
    ensures IsSingle(ir, id) <==> OneCorner(ir, id)
  {
    NamedIs(ir, id);
    hide NodeNamed;
    if IsSingle(ir, id) {
      assert Names(ir, id, NodeNamed(ir, id).value);
    }
  }

  /** A flow with such a path is refused exactly when some box would take more lanes than it
      has room for. */
  lemma LanesFitIff(fonts: Fonts, ir: FlowIR, f: Found)
    requires Ready(f) && Known(f)
    ensures LanesFit(LooksOf(fonts, ir, f), f) <==> LanesTaken(ir, f)
  {
    hide Ready, Known, Meeting, ShapedOf, BoxWidth, LanesOf, TwoTouch, ThreeTouch, OneCorner, IsSingle, SizeOf;
    var looks := LooksOf(fonts, ir, f);
    forall r | 0 <= r < |f.path|
      ensures |Meeting(LanesOf(looks, f), r)| <= (if looks.single(f.path[r]) then 1 else 2)
              <==> !ThreeTouch(f, f.path[r]) && !(OneCorner(ir, f.path[r]) && TwoTouch(f, f.path[r]))
    {
      RowTwo(looks, f, r);
      RowThree(looks, f, r);
      SingleIs(ir, f.path[r]);
    }
  }

  // ---- where lanes and labels stand ----

  /** A lane's label ends 8 left of the lane: on end along the middle of the lane where that is
      16 longer than the label and the label has one line, else level with where the lane
      leaves. */
  predicate LaneLabelStands(q: seq<Point>, t: LabelSize, r: Rect)
    requires |q| == 4
  {
    && r.x + r.w + 8.0 == q[1].x
    && if |t.lines| == 1 && Max(q[1].y, q[2].y) - Min(q[1].y, q[2].y) >= t.w as real + 16.0 then
         r.w == t.h as real && r.h == t.w as real && 2.0 * r.y + r.h == q[1].y + q[2].y
       else
         r.w == t.w as real && r.h == t.h as real && 2.0 * r.y + r.h == 2.0 * q[0].y
  }

  /** Lanes from the innermost out: the first 32 left of the widest box of the path, each next
      12 left of the last and of its label, 8 away. */
  lemma LanesStand(p: Plan, order: seq<Lane>, k: nat)
    requires OnRows(p, order) && k < |order|
    ensures var route := LineRoute(p, order, Beside(k));
            && |route.points| == 4 && (route.caption.Some? <==> order[k].text.Some?)
            && (route.caption.Some? ==> LaneLabelStands(route.points, order[k].text.value, route.caption.value))
            && (k == 0 ==> route.points[1].x == 0.0 - Right(p.rows) - 32.0)
    ensures k > 0 ==>
              var inner := LineRoute(p, order, Beside(k - 1));
              LineRoute(p, order, Beside(k)).points[1].x
              == inner.points[1].x - 12.0 - if inner.caption.Some? then inner.caption.value.w + 8.0 else 0.0
  {
    hide Port, Right, Mid;
    var s := SideOf(p.rows);
    if k > 0 {
      RoomBeside(order[k - 1].text, LaneX(s, order, LeftOf(p.rows), k - 1), From(s, order, k - 1), To(s, order, k - 1));
    }
    hide LaneX;
  }

  /** A step's label is half way down its arrow, 8 right of it; a branch's half way along, 8
      above. */
  lemma ArrowLabelStands(p: Plan, a: Arrow)
    requires HasArrow(p, a) && TextOf(p, a).Some?
    ensures var r, q := ArrowLabel(p, a), ArrowPoints(p, a);
            if a.Down? then r.x == q[0].x + 8.0 && 2.0 * r.y + r.h == q[0].y + q[1].y
            else r.y + r.h + 8.0 == q[0].y && 2.0 * r.x + r.w == q[0].x + q[1].x
  {
    hide BoxOf, Mid;
  }

  /** Lanes nest: the shorter inside, and of two as long the edge written first. */
  lemma LanesNested(looks: Looks, f: Found, j: nat, k: nat)
    requires LooksOk(looks) && Ready(f) && Known(f) && LanesFit(looks, f) && j < k < |OrderOf(looks, f)|
    ensures OnRows(PlanOf(looks, f), OrderOf(looks, f))
    ensures var p, a, b := PlanOf(looks, f), OrderOf(looks, f)[j], OrderOf(looks, f)[k];
            || SpanOf(p, a) < SpanOf(p, b)
            || (SpanOf(p, a) == SpanOf(p, b) && a.edge <= b.edge)
  {
    hide PlanOf, LanesOf, Ready, LanesFit, Known, Fitting, Mid;
    SpineDrawable(looks, f);
    var p, order := PlanOf(looks, f), OrderOf(looks, f);
    var s := SideOf(p.rows);
    assert Shorter(s.mids)(order[j], order[k]) by { SortedAt(s, order, j, k); }
    assert order[j] in order && order[k] in order;
  }

  lemma SortedAt(s: Side, order: seq<Lane>, j: nat, k: nat)
    requires Sorting.Sorted(Shorter(s.mids), order) && j < k < |order|
    ensures Shorter(s.mids)(order[j], order[k])
  {
  }

  /** How far down a lane runs, from the middle of one box to the other's. */
  function SpanOf(p: Plan, l: Lane): real {
    if l.a < |p.rows| && l.b < |p.rows| then
      Max(Mid(p.rows, l.a), Mid(p.rows, l.b)) - Min(Mid(p.rows, l.a), Mid(p.rows, l.b))
    else 0.0
  }
}
