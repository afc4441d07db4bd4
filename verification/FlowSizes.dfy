// What a flow's boxes and labels measure, said of their texts: the width some boxes share, a
// plain box's lines and height, an arrow's label (boxWidth, lay and labelBox,
// ui/src/diagramLayout.ts).
module FlowSizes {
  import opened Text
  import opened DiagramTheme
  import opened Flow
  import opened WordsKept

  /** A length that holds a measure, with less than a step to spare. */
  predicate Snug(length: int, measure: real, step: nat) {
    measure <= length as real < measure + step as real
  }

  /** How wide a node's text is set. */
  function SetWidth(fonts: Fonts, n: FlowNode, run: string): real {
    if fonts.code(n.text) then TextWidth(fonts.adv, run, RAMP_CODE, Mono)
    else if n.shape == Pill then TextWidth(fonts.adv, run, RAMP_BOLD, Sans)
    else TextWidth(fonts.adv, run, RAMP_TEXT, Sans)
  }

  function SetLines(fonts: Fonts, n: FlowNode, room: real): seq<string> {
    if fonts.code(n.text) then Wrapped(fonts.adv, n.text, room, RAMP_CODE, Mono)
    else if n.shape == Pill then Wrapped(fonts.adv, n.text, room, RAMP_BOLD, Sans)
    else Wrapped(fonts.adv, n.text, room, RAMP_TEXT, Sans)
  }

  predicate IsWord(n: FlowNode, run: string) {
    run in Words(n.text)
  }

  /** A line of the label as written. */
  predicate IsLine(n: FlowNode, run: string) {
    run in Split(n.text, '\n')
  }

  /** Some node's word takes this width of box. */
  ghost predicate WordTakes(fonts: Fonts, nodes: seq<FlowNode>, w: int) {
    exists n, run :: n in nodes && IsWord(n, run) && Snug(w, SetWidth(fonts, n, run) + 32.0, 8)
  }

  ghost predicate LineTakes(fonts: Fonts, nodes: seq<FlowNode>, w: int) {
    exists n, run :: n in nodes && IsLine(n, run) && Snug(w, SetWidth(fonts, n, run) + 32.0, 8)
  }

  // ---- the width boxes share ----

  lemma {:induction false} WidestAttained(adv: Advance, runs: seq<string>, size: Size, face: Face)
    ensures WidestRun(adv, runs, size, face) == 0.0
            || exists run :: run in runs && TextWidth(adv, run, size, face) == WidestRun(adv, runs, size, face)
  {
    hide TextWidth;
    if runs != [] {
      WidestAttained(adv, runs[1..], size, face);
      assert runs[0] in runs && forall run <- runs[1..] :: run in runs;
    }
  }

  lemma SetIsStyled(fonts: Fonts, n: FlowNode, run: string)
    ensures var s := StyleOf(fonts, n); SetWidth(fonts, n, run) == TextWidth(fonts.adv, run, s.size, s.face)
  {
    hide TextWidth;
  }

  /** The longest word is no narrower than any, and some node's. */
  lemma {:induction false} LongestIs(fonts: Fonts, nodes: seq<FlowNode>)
    ensures forall n, run :: n in nodes && IsWord(n, run) ==> SetWidth(fonts, n, run) <= LongestWord(fonts, nodes)
    ensures LongestWord(fonts, nodes) == 0.0
            || exists n, run :: n in nodes && IsWord(n, run) && SetWidth(fonts, n, run) == LongestWord(fonts, nodes)
  {
    hide TextWidth, SetWidth, WidestRun, Words, StyleOf;
    if nodes != [] {
      var s := StyleOf(fonts, nodes[0]);
      LongestIs(fonts, nodes[1..]);
      WidestAttained(fonts.adv, Words(nodes[0].text), s.size, s.face);
      assert nodes[0] in nodes && forall n <- nodes[1..] :: n in nodes;
      forall run ensures SetWidth(fonts, nodes[0], run) == TextWidth(fonts.adv, run, s.size, s.face) {
        SetIsStyled(fonts, nodes[0], run);
      }
    }
  }

  lemma {:induction false} WidestIs(fonts: Fonts, nodes: seq<FlowNode>)
    ensures forall n, run :: n in nodes && IsLine(n, run) ==> SetWidth(fonts, n, run) <= WidestLabel(fonts, nodes)
    ensures WidestLabel(fonts, nodes) == 0.0
            || exists n, run :: n in nodes && IsLine(n, run) && SetWidth(fonts, n, run) == WidestLabel(fonts, nodes)
  {
    hide TextWidth, SetWidth, WidestRun, Split, StyleOf;
    if nodes != [] {
      var s := StyleOf(fonts, nodes[0]);
      WidestIs(fonts, nodes[1..]);
      WidestAttained(fonts.adv, Split(nodes[0].text, '\n'), s.size, s.face);
      assert nodes[0] in nodes && forall n <- nodes[1..] :: n in nodes;
      forall run ensures SetWidth(fonts, nodes[0], run) == TextWidth(fonts.adv, run, s.size, s.face) {
        SetIsStyled(fonts, nodes[0], run);
      }
    }
  }

  lemma RoundedSnug(v: real)
    ensures Snug(UpTo(v, 8), v, 8)
  {
  }

  /** Within the bounds, but for a word that needs more; short of the upper bound every label
      has its written lines whole; and no wider than the lower bound, the upper one or some
      node's text takes. */
  ghost predicate SharedBy(fonts: Fonts, nodes: seq<FlowNode>, min: int, max: int, w: int) {
    && min <= w
    && (forall n, run :: n in nodes && IsWord(n, run) ==> SetWidth(fonts, n, run) + 32.0 <= w as real)
    && (w < max ==> forall n, run :: n in nodes && IsLine(n, run) ==> SetWidth(fonts, n, run) + 32.0 <= w as real)
    && (w > max ==> WordTakes(fonts, nodes, w))
    && (w > min ==> w == max || LineTakes(fonts, nodes, w) || WordTakes(fonts, nodes, w))
  }

  /** The width boxes share is such. */
  lemma SharedWidth(fonts: Fonts, nodes: seq<FlowNode>, min: int, max: int)
    requires 40 <= min <= max
    ensures SharedBy(fonts, nodes, min, max, BoxWidth(fonts, nodes, min, max))
  {
    hide SetWidth, LongestWord, WidestLabel, UpTo, IsWord, IsLine;
    var word, whole := LongestWord(fonts, nodes), WidestLabel(fonts, nodes);
    LongestIs(fonts, nodes);
    WidestIs(fonts, nodes);
    RoundedSnug(word + 32.0);
    RoundedSnug(whole + 32.0);
    var w := BoxWidth(fonts, nodes, min, max);
    if w == UpTo(word + 32.0, 8) && word != 0.0 {
      var n, run :| n in nodes && IsWord(n, run) && SetWidth(fonts, n, run) == word;
      assert WordTakes(fonts, nodes, w);
    } else if w == UpTo(whole + 32.0, 8) && whole != 0.0 {
      var n, run :| n in nodes && IsLine(n, run) && SetWidth(fonts, n, run) == whole;
      assert LineTakes(fonts, nodes, w);
    }
  }

  // ---- a plain box ----

  /** The least height, in steps of 4, that holds some lines and the room above and below. */
  predicate HoldsLines(h: int, base: int, lines: nat) {
    h % 4 == 0 && base + 18 * (lines - 1) <= h < base + 18 * (lines - 1) + 4
  }

  /** A plain box: its own label, set as its shape and text ask, wrapped to the width less 16
      on either side, and as tall as its lines. */
  lemma PlainBox(fonts: Fonts, n: FlowNode, w: int, outcome: bool)
    ensures NodeLines(fonts, n, w) == SetLines(fonts, n, w as real - 32.0)
    ensures HoldsLines(BoxHeight(|NodeLines(fonts, n, w)|, outcome), if outcome then 36
                       else 40, |NodeLines(fonts, n, w)|)
  {
    hide Wrapped;
  }

  /** A label whose written lines are each within the room is not broken further. */
  lemma LabelWhole(fonts: Fonts, n: FlowNode, room: real)
    requires forall run :: IsLine(n, run) ==> SetWidth(fonts, n, run) <= room
    ensures |SetLines(fonts, n, room)| == |Split(n.text, '\n')|
  {
    hide TextWidth, Split, WrapAll;
    var paras, s := Split(n.text, '\n'), StyleOf(fonts, n);
    forall i | 0 <= i < |paras| ensures TextWidth(fonts.adv, paras[i], s.size, s.face) <= room {
      assert IsLine(n, paras[i]);
      SetIsStyled(fonts, n, paras[i]);
    }
    AllOneLine(fonts.adv, paras, room, s.size, s.face);
  }

  // ---- an arrow's label ----

  /** A label's box: its text in the small mono, wrapped at 180, 15 a line, as wide as its
      widest line in whole pixels. */
  lemma LabelMeasured(fonts: Fonts, text: string)
    ensures var l := LabelBox(fonts, text);
            && l.lines == Wrapped(fonts.adv, text, 180.0, RAMP_LABEL, Mono) && l.h == 15 * |l.lines|
            && (forall line <- l.lines :: TextWidth(fonts.adv, line, RAMP_LABEL, Mono) <= l.w as real)
            && (l.w == 0 || exists line ::
                line in l.lines && Snug(l.w, TextWidth(fonts.adv, line, RAMP_LABEL, Mono), 1))
  {
    hide TextWidth, Wrapped, WidestRun;
    var lines := Wrapped(fonts.adv, text, 180.0, RAMP_LABEL, Mono);
    WidestAttained(fonts.adv, lines, RAMP_LABEL, Mono);
  }
}
