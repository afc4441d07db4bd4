// The size of a node's box: a dot, a diamond sized to its label, or a plain box
// (shaped and diamond, ui/src/diagramLayout.ts).
module SpineSizes {
  import opened Text
  import opened Geometry
  import opened DiagramTheme
  import opened Flow
  import opened FlowLabels

  /** A node's label and how far its own line breaks let it go. */
  datatype Caption = Caption(text: string, size: Size, face: Face)

  datatype Dim = Dim(lines: seq<string>, w: int, h: int)

  /** The text width k lines have in a diamond w by h. */
  function RoomFor(w: int, h: int, k: nat): real
    requires h > 0
  {
    w as real * (1.0 - (k * LINE_STEP) as real / h as real) - PAD_X
  }

  function LinesIn(adv: Advance, c: Caption, w: int, h: int, k: nat): seq<string>
    requires h > 0
  {
    Wrapped(adv, c.text, RoomFor(w, h, k), c.size, c.face)
  }

  predicate NoWider(adv: Advance, c: Caption, lines: seq<string>, room: real) {
    forall i :: 0 <= i < |lines| ==> TextWidth(adv, lines[i], c.size, c.face) <= room
  }

  /** The label wrapped for k lines takes no more than k, none wider than its room. */
  predicate FitsIn(adv: Advance, c: Caption, w: int, h: int, k: nat)
    requires h > 0
  {
    k * LINE_STEP < h && |LinesIn(adv, c, w, h, k)| <= k && NoWider(adv, c, LinesIn(adv, c, w, h, k), RoomFor(w, h, k))
  }

  function MostLines(text: string): nat {
    MaxI(4, |Split(text, '\n')|)
  }

  function TallestDiamond(text: string): (h: int)
    ensures h >= 96 && h % 4 == 0
  {
    Up4(96 + (MostLines(text) - 4) * LINE_STEP * 2)
  }

  /** Every line within the room. */
  method AllWithin(adv: Advance, c: Caption, lines: seq<string>, room: real) returns (all: bool)
    ensures all <==> NoWider(adv, c, lines, room)
  {
    for i := 0 to |lines|
      invariant NoWider(adv, c, lines[..i], room)
    {
      var tw := MeasureText(adv, lines[i], c.size, c.face);
      assert lines[..i + 1] == lines[..i] + [lines[i]];
      if tw > room {
        return false;
      }
    }
    assert lines[..|lines|] == lines;
    return true;
  }

  /** The label's lines at the first number of lines, from k, it fits in. */
  function FitFrom(adv: Advance, c: Caption, w: int, h: int, k: nat): Option<seq<string>>
    requires h > 0
    decreases MostLines(c.text) + 1 - k
  {
    if k > MostLines(c.text) || k * LINE_STEP >= h then None
    else if FitsIn(adv, c, w, h, k) then Some(LinesIn(adv, c, w, h, k))
    else FitFrom(adv, c, w, h, k + 1)
  }

  /** fits(w, h) */
  method FitLabel(adv: Advance, c: Caption, w: int, h: int) returns (lines: Option<seq<string>>)
    requires h > 0
    ensures lines == FitFrom(adv, c, w, h, 1)
  {
    hide MostLines, NoWider;
    var most := MostLines(c.text);
    var k: nat := 1;
    while k <= most
      invariant FitFrom(adv, c, w, h, k) == FitFrom(adv, c, w, h, 1)
    {
      if k * LINE_STEP >= h {
        return None;
      }
      var room := RoomFor(w, h, k);
      var wrapped := Wrap(adv, c.text, room, c.size, c.face);
      assert wrapped == LinesIn(adv, c, w, h, k);
      var all := AllWithin(adv, c, wrapped, room);
      assert FitsIn(adv, c, w, h, k) <==> |wrapped| <= k && all;
      if |wrapped| <= k && all {
        return Some(wrapped);
      }
      k := k + 1;
    }
    return None;
  }

  /** They are the fewest lines the label fits in, and none only if it fits in no number
      of lines tried. */
  lemma {:induction false} FitIsFewest(adv: Advance, c: Caption, w: int, h: int, k: nat) returns (n: nat)
    requires h > 0
    ensures forall j: nat :: k <= j < n ==> !FitsIn(adv, c, w, h, j)
    ensures FitFrom(adv, c, w, h, k).None? ==> forall j: nat :: k <= j <= MostLines(c.text) ==> !FitsIn(adv, c, w, h, j)
    ensures FitFrom(adv, c, w, h, k).Some? ==>
              k <= n <= MostLines(c.text) && FitsIn(adv, c, w, h, n)
              && FitFrom(adv, c, w, h, k).value == LinesIn(adv, c, w, h, n)
    decreases MostLines(c.text) + 1 - k
  {
    hide LinesIn, RoomFor, NoWider, MostLines;
    n := k;
    if k <= MostLines(c.text) && k * LINE_STEP < h && !FitsIn(adv, c, w, h, k) {
      n := FitIsFewest(adv, c, w, h, k + 1);
    }
  }

  /** Some number of lines fits a diamond of this size. */
  ghost predicate Holds(adv: Advance, c: Caption, w: int, h: int) {
    h > 0 && exists k: nat :: 1 <= k <= MostLines(c.text) && FitsIn(adv, c, w, h, k)
  }

  /** The label inside the diamond: at the height of its lines the diamond is wider
      than each by 16. */
  predicate Inside(adv: Advance, c: Caption, d: Dim) {
    d.h > 0 && |d.lines| * LINE_STEP < d.h && NoWider(adv, c, d.lines, RoomFor(d.w, d.h, |d.lines|))
  }

  lemma RoomGrows(w: int, h: int, j: nat, k: nat)
    requires w >= 0 && h > 0 && j <= k
    ensures RoomFor(w, h, k) <= RoomFor(w, h, j)
  {
    var hr, wr := h as real, w as real;
    var a, b := (j * LINE_STEP) as real, (k * LINE_STEP) as real;
    assert a / hr <= b / hr by {
      Shares(a, b, hr);
    }
    Scaled(wr, 1.0 - b / hr, 1.0 - a / hr);
  }

  lemma Shares(a: real, b: real, h: real)
    requires a <= b && h > 0.0
    ensures a / h <= b / h
  {
    assert b / h - a / h == (b - a) / h;
  }

  lemma Scaled(w: real, a: real, b: real)
    requires w >= 0.0 && a <= b
    ensures w * a <= w * b
  {
    assert w * b - w * a == w * (b - a);
  }

  /** Fewer lines only make more room: what fits lies inside. */
  lemma FitIsInside(adv: Advance, c: Caption, w: int, h: int, k: nat)
    requires w >= 0 && h > 0 && FitsIn(adv, c, w, h, k)
    ensures Inside(adv, c, Dim(LinesIn(adv, c, w, h, k), w, h))
  {
    var lines := LinesIn(adv, c, w, h, k);
    RoomGrows(w, h, |lines|, k);
    hide RoomFor, LinesIn;
  }

  /** The lowest diamond of a width, from a height up, that holds the label. */
  function FirstHeight(adv: Advance, c: Caption, w: int, h: int): Option<Dim>
    requires h > 0
    decreases TallestDiamond(c.text) - h
  {
    if h > TallestDiamond(c.text) then None
    else
      var lines := FitFrom(adv, c, w, h, 1);
      if lines.Some? then Some(Dim(lines.value, w, h)) else FirstHeight(adv, c, w, h + 4)
  }

  /** The narrowest, from a width up, then the lowest; past the widest, that one at its
      tallest, the label wrapped to its middle. */
  function FirstWidth(adv: Advance, c: Caption, w: int, widest: int): Dim
    decreases widest - w
  {
    if w > widest then Dim(Wrapped(adv, c.text, widest as real / 2.0, c.size, c.face), widest, TallestDiamond(c.text))
    else
      var d := FirstHeight(adv, c, w, 52);
      if d.Some? then d.value else FirstWidth(adv, c, w + 16, widest)
  }

  function DiamondOf(adv: Advance, c: Caption, w0: int): Dim {
    FirstWidth(adv, c, w0, w0 + 480)
  }

  method Diamond(adv: Advance, c: Caption, w0: int) returns (d: Dim)
    ensures d == DiamondOf(adv, c, w0)
  {
    hide FitFrom, TallestDiamond;
    var hMax, wMax := TallestDiamond(c.text), w0 + 480;
    var w := w0;
    while w <= wMax
      invariant FirstWidth(adv, c, w, wMax) == DiamondOf(adv, c, w0)
    {
      var h := 52;
      while h <= hMax
        invariant h > 0 && FirstHeight(adv, c, w, h) == FirstHeight(adv, c, w, 52)
      {
        var lines := FitLabel(adv, c, w, h);
        if lines.Some? {
          return Dim(lines.value, w, h);
        }
        h := h + 4;
      }
      w := w + 16;
    }
    var wrapped := Wrap(adv, c.text, wMax as real / 2.0, c.size, c.face);
    return Dim(wrapped, wMax, hMax);
  }

  /** A height the search tries. */
  predicate TriedHeight(c: Caption, h: int) {
    52 <= h <= TallestDiamond(c.text) && h % 4 == 0
  }

  lemma {:induction false} FirstHeightHolds(adv: Advance, c: Caption, w: int, h: int)
    requires w >= 0 && h >= 52 && h % 4 == 0
    ensures var r := FirstHeight(adv, c, w, h);
            if r.None? then forall g: int :: g >= h && TriedHeight(c, g) ==> !Holds(adv, c, w, g)
            else && r.value.w == w && r.value.h >= h && TriedHeight(c, r.value.h) && Inside(adv, c, r.value)
                 && forall g: int :: h <= g < r.value.h && TriedHeight(c, g) ==> !Holds(adv, c, w, g)
    decreases TallestDiamond(c.text) - h
  {
    hide Inside, FitsIn, Holds, LinesIn, FitFrom, TriedHeight;
    TriedSteps(c, h);
    if h <= TallestDiamond(c.text) {
      var n := FitIsFewest(adv, c, w, h, 1);
      if FitFrom(adv, c, w, h, 1).Some? {
        FitIsInside(adv, c, w, h, n);
      } else {
        HoldsNot(adv, c, w, h);
        FirstHeightHolds(adv, c, w, h + 4);
      }
    }
  }

  /** Heights tried are 4 apart. */
  lemma TriedSteps(c: Caption, h: int)
    requires h >= 52 && h % 4 == 0
    ensures h <= TallestDiamond(c.text) <==> TriedHeight(c, h)
    ensures forall g: int :: TriedHeight(c, g) && g > h ==> g >= h + 4
    ensures forall g: int :: TriedHeight(c, g) ==> g <= TallestDiamond(c.text)
  {
    hide TallestDiamond;
  }

  lemma HoldsNot(adv: Advance, c: Caption, w: int, h: int)
    requires h > 0 && forall k: nat :: 1 <= k <= MostLines(c.text) ==> !FitsIn(adv, c, w, h, k)
    ensures !Holds(adv, c, w, h)
  {
    hide FitsIn;
  }

  /** No diamond of that width tried holds the label. */
  ghost predicate NoneHolds(adv: Advance, c: Caption, w: int) {
    forall g: int :: TriedHeight(c, g) ==> !Holds(adv, c, w, g)
  }

  lemma {:induction false} FirstWidthHolds(adv: Advance, c: Caption, w: int, widest: int)
    requires 0 <= w <= widest + 16 && (widest - w) % 16 == 0 && widest >= 0
    ensures var d := FirstWidth(adv, c, w, widest);
            && (w <= widest ==> w <= d.w) && d.w <= widest && TriedHeight(c, d.h)
            && (forall v: int :: w <= v < d.w && (v - w) % 16 == 0 ==> NoneHolds(adv, c, v))
            && if Inside(adv, c, d) then
                 w <= widest ==> forall g: int :: g < d.h && TriedHeight(c, g) ==> !Holds(adv, c, d.w, g)
               else d.w == widest && (w <= widest ==> NoneHolds(adv, c, widest))
    decreases widest - w
  {
    hide Inside, FitsIn, Holds, FirstHeight, Wrapped;
    if w <= widest {
      FirstHeightHolds(adv, c, w, 52);
      if FirstHeight(adv, c, w, 52).None? {
        FirstWidthHolds(adv, c, w + 16, widest);
        assert NoneHolds(adv, c, w);
        var d := FirstWidth(adv, c, w, widest);
        forall v: int | w <= v < d.w && (v - w) % 16 == 0 ensures NoneHolds(adv, c, v) {
          assert v == w || v >= w + 16;
        }
      }
    }
  }

  /** The label lies inside the diamond, no narrower one tried holds it, nor a lower one
      as wide; else none tried does and the diamond is 480 wider than asked for. */
  lemma DiamondHolds(adv: Advance, c: Caption, w0: int)
    requires w0 >= 0
    ensures var d := DiamondOf(adv, c, w0);
            && w0 <= d.w <= w0 + 480 && TriedHeight(c, d.h)
            && (forall v: int :: w0 <= v < d.w && (v - w0) % 16 == 0 ==> NoneHolds(adv, c, v))
            && if Inside(adv, c, d) then forall g: int :: g < d.h && TriedHeight(c, g) ==> !Holds(adv, c, d.w, g)
               else d.w == w0 + 480 && NoneHolds(adv, c, d.w)
  {
    FirstWidthHolds(adv, c, w0, w0 + 480);
    hide FirstWidth, Inside, Holds;
  }

  // ---- any node ----

  function CaptionOf(fonts: Fonts, n: FlowNode): Caption {
    Caption(n.text, StyleOf(fonts, n).size, StyleOf(fonts, n).face)
  }

  /** What a node is drawn as, given the width of the plain boxes beside it. */
  function ShapedOf(fonts: Fonts, n: FlowNode, outcome: bool, w: int): Dim {
    match n.shape
    case Start => Dim([], 16, 16)
    case Stop => Dim([], 20, 20)
    case Decision => if n.text == "" then Dim([], 28, 28) else DiamondOf(fonts.adv, CaptionOf(fonts, n), w - 20)
    case _ => Dim(NodeLines(fonts, n, w), w, BoxHeight(|NodeLines(fonts, n, w)|, outcome))
  }

  method Shaped(fonts: Fonts, n: FlowNode, outcome: bool, w: int) returns (d: Dim)
    ensures d == ShapedOf(fonts, n, outcome, w)
  {
    match n.shape
    case Start => return Dim([], 16, 16);
    case Stop => return Dim([], 20, 20);
    case Decision =>
      if n.text == "" {
        return Dim([], 28, 28);
      }
      d := Diamond(fonts.adv, CaptionOf(fonts, n), w - 20);
    case _ =>
      var lines := NodeLines(fonts, n, w);
      return Dim(lines, w, BoxHeight(|lines|, outcome));
  }

  /** A node whose left side takes one lane. */
  predicate TakesOne(n: FlowNode) {
    n.shape.Decision? || n.shape.Start? || n.shape.Stop?
  }

  /** Every box is 16 by 16 or more, one that takes two lanes 36 tall; a plain one holds its
      lines at 18 each, and only a diamond is wider than asked for, by 460 at most. */
  lemma ShapedSizes(fonts: Fonts, n: FlowNode, outcome: bool, w: int)
    requires w >= 200
    ensures var d := ShapedOf(fonts, n, outcome, w);
            && d.w >= 16 && d.h >= 16 && d.h % 4 == 0 && (!TakesOne(n) ==> d.w == w && d.h >= 36)
            && (!TakesOne(n) ==> d.h >= 18 * |d.lines| + 18)
            && d.w <= w + 460 && (!n.shape.Decision? ==> d.w <= w)
  {
    hide DiamondOf, NodeLines;
    if n.shape.Decision? && n.text != "" {
      DiamondHolds(fonts.adv, CaptionOf(fonts, n), w - 20);
    }
  }

  // ---- a label too long for any diamond tried ----

  /** Lines within a room, joined with spaces, are no wider than the rooms and the spaces. */
  lemma {:induction false} JoinedWidth(adv: Advance, c: Caption, lines: seq<string>, room: real)
    requires lines != [] && NoWider(adv, c, lines, room)
    ensures TextWidth(adv, Join(lines, " "), c.size, c.face)
            <= |lines| as real * room + (|lines| - 1) as real * TextWidth(adv, " ", c.size, c.face)
  {
    hide TextWidth;
    var space := TextWidth(adv, " ", c.size, c.face);
    assert TextWidth(adv, lines[0], c.size, c.face) <= room;
    if |lines| > 1 {
      var rest := lines[1..];
      assert NoWider(adv, c, rest, room) by {
        assert forall i :: 0 <= i < |rest| ==> rest[i] == lines[i + 1];
      }
      JoinedWidth(adv, c, rest, room);
      TextWidthConcat(adv, lines[0] + " ", Join(rest, " "), c.size, c.face);
      TextWidthConcat(adv, lines[0], " ", c.size, c.face);
      OneTimes(|rest|, room);
      OneTimes(|rest| - 1, space);
    }
  }

  lemma OneTimes(n: nat, x: real)
    ensures (n + 1) as real * x == n as real * x + x
  {
    assert (n + 1) as real == n as real + 1.0;
  }

  /** The widest text k lines of a diamond that wide hold, at the height of one without line
      breaks of its own. */
  function MostHeld(adv: Advance, c: Caption, widest: int, k: nat): real
    requires k > 0
  {
    k as real * (widest as real * (1.0 - 0.1875 * k as real) - 16.0)
    + (k - 1) as real * TextWidth(adv, " ", c.size, c.face)
  }

  /** A single-spaced label too wide for each of the numbers of lines tried. */
  predicate TooLong(adv: Advance, c: Caption, widest: int) {
    && SingleSpaced(c.text) && '\n' !in c.text
    && forall k: nat :: 1 <= k <= 4 ==> MostHeld(adv, c, widest, k) < TextWidth(adv, c.text, c.size, c.face)
  }

  lemma OnePara(text: string)
    requires '\n' !in text
    ensures Split(text, '\n') == [text] && TallestDiamond(text) == 96 && MostLines(text) == 4
  {
    assert Join([text], ['\n']) == text;
    SplitJoin([text], '\n');
  }

  /** The room k lines have is most at the widest and tallest. */
  lemma RoomMost(w: int, h: int, k: nat, widest: int)
    requires 0 <= w <= widest && 0 < h <= 96 && k * LINE_STEP < h
    ensures RoomFor(w, h, k) <= widest as real * (1.0 - 0.1875 * k as real) - 16.0
  {
    var part, share := (k * LINE_STEP) as real / h as real, 0.1875 * k as real;
    EighteenTimes(k, h);
    Scaled(widest as real, 1.0 - part, 1.0 - share);
    Scaled(1.0 - part, w as real, widest as real);
  }

  lemma EighteenTimes(k: nat, h: int)
    requires 0 < h <= 96 && k * LINE_STEP < h
    ensures 0.1875 * k as real <= (k * LINE_STEP) as real / h as real < 1.0
  {
    var n, g := (k * LINE_STEP) as real, h as real;
    assert n == 18.0 * k as real;
    if k == 0 {
      assert n / g == 0.0;
    } else {
      Quotients(n, g, 96.0);
      assert n / 96.0 == 0.1875 * k as real;
    }
    assert n / g < 1.0 by { BelowOne(n, g); }
  }

  lemma BelowOne(n: real, g: real)
    requires 0.0 <= n < g
    ensures n / g < 1.0
  {
    assert n / g * g == n;
    if n / g >= 1.0 {
      Scaled(g, 1.0, n / g);
    }
  }

  /** What fits k lines is no wider than k lines hold. */
  lemma FitsHeld(adv: Advance, c: Caption, w: int, h: int, k: nat, widest: int)
    requires 0 <= w <= widest && 0 < h <= 96 && k > 0 && FitsIn(adv, c, w, h, k)
    requires SingleSpaced(c.text) && '\n' !in c.text
    ensures TextWidth(adv, c.text, c.size, c.face) <= MostHeld(adv, c, widest, k)
  {
    hide TextWidth, RoomFor, WrapParagraph;
    var lines, room := LinesIn(adv, c, w, h, k), RoomFor(w, h, k);
    var most := widest as real * (1.0 - 0.1875 * k as real) - 16.0;
    OnePara(c.text);
    assert lines == WrapParagraph(adv, c.text, room, c.size, c.face) by { WrapOne(adv, c.text, room, c.size, c.face); }
    RejoinRestores(adv, c.text, room, c.size, c.face);
    JoinedWidth(adv, c, lines, room);
    RoomMost(w, h, k, widest);
    assert 0.0 <= TextWidth(adv, lines[0], c.size, c.face) <= room;
    Times(|lines|, k, room, most);
    Times(|lines| - 1, k - 1, TextWidth(adv, " ", c.size, c.face), TextWidth(adv, " ", c.size, c.face));
  }

  lemma WrapOne(adv: Advance, text: string, room: real, size: Size, face: Face)
    requires Split(text, '\n') == [text]
    ensures Wrapped(adv, text, room, size, face) == WrapParagraph(adv, text, room, size, face)
  {
    hide WrapParagraph;
    assert [text][1..] == [];
    assert WrapAll(adv, [], room, size, face) == [];
  }

  lemma Times(n: nat, k: nat, x: real, y: real)
    requires n <= k && 0.0 <= x <= y
    ensures n as real * x <= k as real * y
  {
    Scaled(n as real, x, y);
    Scaled(y, n as real, k as real);
  }

  /** A label too long for any diamond tried is given the widest. */
  lemma TooLongWidest(adv: Advance, c: Caption, w0: int)
    requires w0 >= 0 && TooLong(adv, c, w0 + 480)
    ensures DiamondOf(adv, c, w0).w == w0 + 480
  {
    hide TooLong, FirstWidth;
    WidestLeft(adv, c, w0, w0 + 480);
  }

  lemma {:induction false} WidestLeft(adv: Advance, c: Caption, w: int, widest: int)
    requires 0 <= w && TooLong(adv, c, widest) && (widest - w) % 16 == 0
    ensures FirstWidth(adv, c, w, widest).w == widest
    decreases widest - w
  {
    hide TooLong, FirstHeight, Wrapped;
    if w <= widest {
      NoHeight(adv, c, w, 52, widest);
      WidestLeft(adv, c, w + 16, widest);
    }
  }

  lemma {:induction false} NoHeight(adv: Advance, c: Caption, w: int, h: int, widest: int)
    requires 0 <= w <= widest && h > 0 && TooLong(adv, c, widest)
    ensures FirstHeight(adv, c, w, h).None?
    decreases TallestDiamond(c.text) - h
  {
    hide FitFrom, FitsIn, MostHeld, TextWidth, SingleSpaced, TallestDiamond;
    OnePara(c.text);
    if h <= 96 {
      var n := FitIsFewest(adv, c, w, h, 1);
      if FitFrom(adv, c, w, h, 1).Some? {
        FitsHeld(adv, c, w, h, n, widest);
        assert false;
      }
      NoHeight(adv, c, w, h + 4, widest);
    }
  }

  // ---- a decision of one word ----

  /** A diamond that holds a word of its own label is wider than the word by 16 and a
      fifth more, since at 96 tall its one line leaves 13 parts in 16 of its width. */
  lemma WordWidens(adv: Advance, c: Caption, d: Dim)
    requires OneWord(c.text) && d.lines == [c.text] && Inside(adv, c, d) && d.h <= 96 && d.w >= 0
    ensures TextWidth(adv, c.text, c.size, c.face) + 16.0 <= d.w as real * 0.8125
  {
    hide TextWidth, Inside, NoWider, RoomFor;
    InsideRoom(adv, c, d);
    RoomOne(d.w, d.h);
    FirstWithin(adv, c, d.lines, RoomFor(d.w, d.h, 1));
  }

  /** The room one line has. */
  lemma RoomOne(w: int, h: int)
    requires w >= 0 && 0 < h <= 96
    ensures RoomFor(w, h, 1) <= w as real * 0.8125 - 16.0
  {
    var wr, part := w as real, 18.0 / h as real;
    EighteenOf(h);
    var share := 1.0 - part;
    Scaled(wr, share, 0.8125);
    assert RoomFor(w, h, 1) == wr * share - 16.0;
  }

  lemma EighteenOf(h: int)
    requires 0 < h <= 96
    ensures 18.0 / h as real >= 0.1875
  {
    Quotients(18.0, h as real, 96.0);
    assert 18.0 / 96.0 == 0.1875;
  }

  lemma InsideRoom(adv: Advance, c: Caption, d: Dim)
    requires Inside(adv, c, d) && |d.lines| == 1
    ensures d.h > 0 && NoWider(adv, c, d.lines, RoomFor(d.w, d.h, 1))
  {
    hide RoomFor, NoWider;
  }

  lemma FirstWithin(adv: Advance, c: Caption, lines: seq<string>, room: real)
    requires NoWider(adv, c, lines, room) && lines != []
    ensures TextWidth(adv, lines[0], c.size, c.face) <= room
  {
    hide TextWidth;
  }

  lemma Quotients(a: real, h: real, g: real)
    requires a > 0.0 && 0.0 < h <= g
    ensures a / h >= a / g
  {
    assert a / h * h == a && a / g * g == a;
    if a / h < a / g {
      Scaled(h, a / h, a / g);
      Scaled(a / g, h, g);
    }
  }

  /** So a decision whose label is one word is that wide, or 460 wider than the boxes
      beside it. */
  lemma WordDecision(fonts: Fonts, n: FlowNode, outcome: bool, w: int)
    requires n.shape.Decision? && n.text != "" && OneWord(n.text) && w >= 200
    ensures var d, s := ShapedOf(fonts, n, outcome, w), StyleOf(fonts, n);
            d.w == w + 460 || TextWidth(fonts.adv, n.text, s.size, s.face) + 16.0 <= d.w as real * 0.8125
  {
    var c := CaptionOf(fonts, n);
    var d := DiamondOf(fonts.adv, c, w - 20);
    DiamondHolds(fonts.adv, c, w - 20);
    if Inside(fonts.adv, c, d) {
      DiamondWord(fonts.adv, c, w - 20, w + 460);
      LinesOfWord(c.text);
      hide DiamondOf, Inside, NoneHolds;
      WordWidens(fonts.adv, c, d);
    }
  }

  lemma LinesOfWord(text: string)
    requires OneWord(text)
    ensures TallestDiamond(text) == 96
  {
    assert Join([text], ['\n']) == text;
    SplitJoin([text], '\n');
  }

  lemma {:induction false} DiamondWord(adv: Advance, c: Caption, w: int, widest: int)
    requires OneWord(c.text)
    ensures FirstWidth(adv, c, w, widest).lines == [c.text]
    decreases widest - w
  {
    hide FirstHeight, Wrapped;
    if w > widest {
      WordStays(adv, c.text, widest as real / 2.0, c.size, c.face);
    } else {
      HeightWord(adv, c, w, 52);
      if FirstHeight(adv, c, w, 52).None? {
        DiamondWord(adv, c, w + 16, widest);
      }
    }
  }

  lemma {:induction false} HeightWord(adv: Advance, c: Caption, w: int, h: int)
    requires OneWord(c.text) && h > 0
    ensures FirstHeight(adv, c, w, h).Some? ==> FirstHeight(adv, c, w, h).value.lines == [c.text]
    decreases TallestDiamond(c.text) - h
  {
    hide FitFrom, FitsIn, Wrapped, RoomFor, TallestDiamond;
    if h <= TallestDiamond(c.text) {
      var n := FitIsFewest(adv, c, w, h, 1);
      WordStays(adv, c.text, RoomFor(w, h, n), c.size, c.face);
      if FitFrom(adv, c, w, h, 1).None? {
        HeightWord(adv, c, w, h + 4);
      }
    }
  }
}
