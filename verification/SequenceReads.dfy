// What a sequence diagram's drawing says and how it is set: participants by their labels,
// messages, notes, titles and conditions in boxes of their own measure
// (layoutSequence, ui/src/diagramSequence.ts).
module SequenceReads {
  import opened Geometry
  import opened DiagramTheme
  import opened SequenceIR
  import opened SequenceColumns
  import opened SequenceLayout
  import opened SequenceRows
  import opened SequenceFrames
  import opened SequenceProof
  import opened SequenceEnclosure
  import opened SequenceCanvas
  import opened SequenceTheorem

  // ---- a text's measure ----

  predicate LinesWithin(adv: Advance, lines: seq<string>, size: Size, face: Face, w: real) {
    forall i :: 0 <= i < |lines| ==> TextWidth(adv, lines[i], size, face) <= w
  }

  /** One line takes that much, but for less than a pixel. */
  ghost predicate SomeTakes(adv: Advance, lines: seq<string>, size: Size, face: Face, w: real) {
    exists i :: 0 <= i < |lines| && w < TextWidth(adv, lines[i], size, face) + 1.0
  }

  /** As wide as the widest line, in whole pixels. */
  ghost predicate SnugLines(adv: Advance, lines: seq<string>, size: Size, face: Face, w: real) {
    LinesWithin(adv, lines, size, face, w) && (w == 0.0 || SomeTakes(adv, lines, size, face, w))
  }

  lemma {:induction false} WidestOne(adv: Advance, lines: seq<string>, size: Size, face: Face)
    ensures var w := Widest(adv, lines, size, face);
            && LinesWithin(adv, lines, size, face, w)
            && (w == 0.0 || exists i :: 0 <= i < |lines| && TextWidth(adv, lines[i], size, face) == w)
  {
    hide TextWidth;
    if lines != [] {
      WidestOne(adv, lines[1..], size, face);
      var w, rest := Widest(adv, lines, size, face), Widest(adv, lines[1..], size, face);
      assert forall i :: 0 < i < |lines| ==> lines[i] == lines[1..][i - 1];
      if w == rest && w != 0.0 {
        var i :| 0 <= i < |lines[1..]| && TextWidth(adv, lines[1..][i], size, face) == rest;
        assert lines[i + 1] == lines[1..][i];
      }
    }
  }

  lemma UpSnug(w: real)
    ensures w <= Up(w) < w + 1.0 && (w == 0.0 ==> Up(w) == 0.0)
  {
  }

  lemma MeasuredSnug(fonts: Fonts, text: string, max: real, s: Style)
    ensures var b := Measured(fonts, text, max, s);
            && b.lines == Wrapped(fonts.adv, text, max, s.size, s.face) && b.face == s.face && b.size == s.size
            && SnugLines(fonts.adv, b.lines, s.size, s.face, b.w) && b.h == |b.lines| as real * s.lineH
  {
    hide TextWidth, Wrapped, Widest, Up;
    var lines := Wrapped(fonts.adv, text, max, s.size, s.face);
    WidestOne(fonts.adv, lines, s.size, s.face);
    UpSnug(Widest(fonts.adv, lines, s.size, s.face));
  }

  // ---- participants ----

  /** A participant's box: its label, a name from the code in the mono, wrapped at 160 and set
      16 inside a box of 96 or more centred on its lifeline, as tall as its lines and 22. */
  ghost predicate HeadReads(fonts: Fonts, a: Actor, head: SeqActor, line: SeqLifeline) {
    && head.id == a.id == line.id && head.bold == !fonts.code(a.text)
    && head.face == (if fonts.code(a.text) then Mono else Sans)
    && head.size == (if fonts.code(a.text) then RAMP_CODE else RAMP_BOLD)
    && head.lines == Wrapped(fonts.adv, a.text, 160.0, head.size, head.face)
    && head.box.x + head.box.w / 2.0 == line.x && head.box.y == 24.0 && head.box.w >= 96.0
    && LinesWithin(fonts.adv, head.lines, head.size, head.face, head.box.w - 32.0)
    && (head.box.w == 96.0 || SomeTakes(fonts.adv, head.lines, head.size, head.face, head.box.w - 32.0))
    && head.box.h >= 18.0 * |head.lines| as real + 22.0
  }

  lemma PlateReads(fonts: Fonts, a: Actor)
    ensures var p := PlateOf(fonts, a);
            && p.bold == !fonts.code(a.text)
            && p.face == (if fonts.code(a.text) then Mono else Sans)
            && p.size == (if fonts.code(a.text) then RAMP_CODE else RAMP_BOLD)
            && p.lines == Wrapped(fonts.adv, a.text, 160.0, p.size, p.face) && p.w >= 96.0
            && LinesWithin(fonts.adv, p.lines, p.size, p.face, p.w - 32.0)
            && (p.w == 96.0 || SomeTakes(fonts.adv, p.lines, p.size, p.face, p.w - 32.0))
  {
    hide TextWidth, Wrapped, Widest, Up;
    var p := PlateOf(fonts, a);
    WidestOne(fonts.adv, p.lines, p.size, p.face);
    UpSnug(Widest(fonts.adv, p.lines, p.size, p.face) + 32.0);
  }

  lemma {:induction false} MostLinesIs(plates: seq<Plate>)
    ensures forall i :: 0 <= i < |plates| ==> |plates[i].lines| <= MostLines(plates)
    ensures plates != [] ==> exists i :: 0 <= i < |plates| && |plates[i].lines| == MostLines(plates)
  {
    if plates != [] {
      MostLinesIs(plates[1..]);
      assert forall i :: 0 < i < |plates| ==> plates[i] == plates[1..][i - 1];
      if |plates[0].lines| != MostLines(plates) {
        var i :| 0 <= i < |plates[1..]| && |plates[1..][i].lines| == MostLines(plates[1..]);
        assert plates[i + 1] == plates[1..][i];
      }
    }
  }

  /** The heads placed, before they are moved across. */
  lemma HeadsPlaced(env: Env, y2: real, i: nat)
    requires env.Valid() && i < |env.actors|
    ensures var heads := PlaceActors(env.fonts, env.actors, env.xs);
            var lines := PlaceLifelines(env.actors, env.xs, TopOf(env), y2);
            && HeadReads(env.fonts, env.actors[i], heads[i], lines[i])
            && lines[i].y1 == heads[i].box.y + heads[i].box.h && lines[i].y2 == y2
            && heads[i].box.h == heads[0].box.h
            && exists j :: 0 <= j < |heads| && heads[0].box.h == 18.0 * |heads[j].lines| as real + 22.0
  {
    hide PlateOf, Wrapped, TextWidth, LinesWithin, SomeTakes;
    var plates := Plates(env.fonts, env.actors);
    PlateReads(env.fonts, env.actors[i]);
    MostLinesIs(plates);
    var j :| 0 <= j < |plates| && |plates[j].lines| == MostLines(plates);
    hide MostLines;
    var heads := PlaceActors(env.fonts, env.actors, env.xs);
    assert heads[j].lines == plates[j].lines;
    Times18(|plates[i].lines|, MostLines(plates));
  }

  lemma Times18(a: nat, b: nat)
    requires a <= b
    ensures 18.0 * a as real <= b as real * LINE_HEIGHT
  {
  }

  /** Every participant stands under its own label, and all in one row, as tall as the tallest
      needs; its lifeline hangs from its box. */
  lemma ParticipantsRead(fonts: Fonts, ir: SequenceIR, i: nat)
    requires WellFormed(ir) && i < |ir.actors|
    ensures var l := Layout(fonts, ir);
            && |l.actors| == |l.lifelines| == |ir.actors|
            && HeadReads(fonts, ir.actors[i], l.actors[i], l.lifelines[i])
            && l.lifelines[i].y1 == l.actors[i].box.y + l.actors[i].box.h && l.lifelines[i].y2 == l.lifelines[0].y2
            && l.actors[i].box.h == l.actors[0].box.h
            && exists j :: 0 <= j < |l.actors| && l.actors[0].box.h == 18.0 * |l.actors[j].lines| as real + 22.0
  {
    hide Lifelines, Ready, PlaceRows, PlaceActors, PlaceLifelines, LayoutBetween, HeadReads, TopOf, BottomOf;
    LifelinesRoomy(fonts, ir);
    var env := EnvOf(fonts, ir);
    assert Ready(env, ir.rows) by { IsReady(fonts, ir); }
    var dx := BetweenShape(env, ir.rows);
    HeadsPlaced(env, BottomOf(Placed(env, ir.rows)), i);
    HeadsPlaced(env, BottomOf(Placed(env, ir.rows)), 0);
    HeadsMove(env, Layout(fonts, ir), ir.rows, dx, i);
    HeadsMove(env, Layout(fonts, ir), ir.rows, dx, 0);
  }

  lemma IsReady(fonts: Fonts, ir: SequenceIR)
    requires WellFormed(ir)
    ensures Ready(EnvOf(fonts, ir), ir.rows)
  {
    hide Lifelines;
    LifelinesRoomy(fonts, ir);
  }

  lemma HeadsMove(env: Env, l: SequenceLayout, rows: seq<Row>, dx: real, i: nat)
    requires Ready(env, rows) && i < |env.actors|
    requires Moved(l, PlaceActors(env.fonts, env.actors, env.xs), PlacedLifelines(env, rows), Placed(env, rows), dx)
    ensures |l.actors| == |l.lifelines| == |env.actors|
    ensures var heads, lines := PlaceActors(env.fonts, env.actors, env.xs), PlacedLifelines(env, rows);
            && |heads| == |lines| == |env.actors|
            && (HeadReads(env.fonts, env.actors[i], heads[i], lines[i]) ==>
                  HeadReads(env.fonts, env.actors[i], l.actors[i], l.lifelines[i]))
            && l.lifelines[i].y1 == lines[i].y1 && l.lifelines[i].y2 == lines[i].y2
            && forall j :: 0 <= j < |heads| ==>
                 l.actors[j].box.h == heads[j].box.h && l.actors[j].box.y == heads[j].box.y
                                                && l.actors[j].lines == heads[j].lines
  {
    hide Placed, Ready, TextWidth, Wrapped, LinesWithin, SomeTakes, PlaceActors;
  }

  // ---- messages and notes ----

  /** A text block: set and wrapped as asked, in a box of its own measure. */
  ghost predicate BlockReads(fonts: Fonts, t: TextBlock, text: string, max: real, size: Size, face: Face, lineH: real) {
    && t.face == face && t.size == size && t.lines == Wrapped(fonts.adv, text, max, size, face)
    && SnugLines(fonts.adv, t.lines, size, face, t.box.w) && t.box.h == |t.lines| as real * lineH
  }

  /** A message: its text in the sans, a name from the code in the mono, 16 a line; an arrow
      level, its text 8 above it and half way between its ends; a loop 24 wide and as tall as
      its text, 18 at least, its text 8 beside it and level with it. */
  ghost predicate MessageSet(fonts: Fonts, m: SeqMessage, text: string) {
    var face, size := if fonts.code(text) then Mono else Sans, if fonts.code(text) then RAMP_CODE else RAMP_TEXT;
    && (m.caption.Some? <==> text != "")
    && (m.caption.Some? ==> BlockReads(fonts, m.caption.value, text, 180.0, size, face, 16.0))
    && if m.self then LoopSet(m) else ArrowSet(m)
  }

  predicate ArrowSet(m: SeqMessage) {
    && |m.points| == 2 && m.points[0].y == m.points[1].y
    && (m.caption.Some? ==>
          var b := m.caption.value.box;
          && b.y + b.h + 8.0 == m.points[0].y && 2.0 * b.x + b.w == m.points[0].x + m.points[1].x)
  }

  predicate LoopSet(m: SeqMessage) {
    && |m.points| == 4 && m.points[1] == Point(m.points[0].x + 24.0, m.points[0].y)
    && m.points[2] == Point(m.points[1].x, m.points[3].y) && m.points[3].x == m.points[0].x
    && var h := m.points[3].y - m.points[0].y;
       if m.caption.None? then h == 18.0
       else
         var b := m.caption.value.box;
         h == Max(18.0, b.h) && b.x == m.points[1].x + 8.0 && 2.0 * b.y + b.h == 2.0 * m.points[0].y + h
  }

  lemma MessageIsSet(env: Env, y: real, r: Row, framed: bool)
    requires env.Valid() && r.Message? && KnownRow(env.actors, r)
    ensures MessageSet(env.fonts, PlaceMessage(env, y, r, framed), r.text)
    ensures PlaceMessage(env, y, r, framed).framed == framed
  {
    if r.text != "" {
      MeasuredSnug(env.fonts, r.text, TEXT_MAX, MessageStyle(env.fonts, r.text));
    }
    hide Measured, SnugLines, Wrapped, Col;
  }

  lemma MessageSetMoves(fonts: Fonts, m: SeqMessage, text: string, dx: real)
    requires MessageSet(fonts, m, text)
    ensures MessageSet(fonts, MoveMessage(m, dx), text)
  {
    hide SnugLines, Wrapped;
  }

  /** A note: its text in the sans, wrapped at 240, 12 inside a box of 80 or more, 18 a line and
      14; over two participants it is half way between them and reaches 24 past each. */
  ghost predicate NoteSet(fonts: Fonts, n: SeqNote, r: Row, xi: real, xj: real)
    requires r.Note?
  {
    && n.lines == Wrapped(fonts.adv, r.text, 240.0, RAMP_TEXT, Sans)
    && n.box.h == 18.0 * |n.lines| as real + 14.0 && n.box.w >= 80.0
    && LinesWithin(fonts.adv, n.lines, RAMP_TEXT, Sans, n.box.w - 24.0)
    && (n.box.w == 80.0 || SomeTakes(fonts.adv, n.lines, RAMP_TEXT, Sans, n.box.w - 24.0)
        || (r.side == Over && r.from != r.to && n.box.w == Max(xi, xj) - Min(xi, xj) + 48.0))
    && (r.side == Over ==> 2.0 * n.box.x + n.box.w == xi + xj)
    && (r.side == Over && r.from != r.to ==> n.box.x + 24.0 <= Min(xi, xj) && Max(xi, xj) + 24.0 <= n.box.x + n.box.w)
  }

  lemma NoteIsSet(env: Env, y: real, r: Row)
    requires env.Valid() && r.Note? && KnownRow(env.actors, r)
    ensures NoteSet(env.fonts, PlaceNote(env, y, r), r, env.xs[Col(env.actors, r.from)], env.xs[Col(env.actors, r.to)])
  {
    hide Measured, Wrapped, TextWidth, SomeTakes, LinesWithin;
    MeasuredSnug(env.fonts, r.text, NOTE_MAX, NOTE_STYLE);
    var n, b := PlaceNote(env, y, r), Measured(env.fonts, r.text, NOTE_MAX, NOTE_STYLE);
    Wider(env.fonts.adv, n.lines, b.w, n.box.w - 24.0);
  }

  lemma Wider(adv: Advance, lines: seq<string>, w: real, v: real)
    requires w <= v && LinesWithin(adv, lines, RAMP_TEXT, Sans, w)
    ensures LinesWithin(adv, lines, RAMP_TEXT, Sans, v)
  {
    hide TextWidth;
  }

  /** In the finished drawing a message written stands as its text and its place among frames
      ask. */
  lemma MessagesRead(fonts: Fonts, ir: SequenceIR, p: nat)
    requires WellFormed(ir) && p < |ir.rows| && ir.rows[p].Message?
    ensures var l, k := Layout(fonts, ir), |MessageRows(ir.rows[..p])|;
            && k < |l.messages| && MessageSet(fonts, l.messages[k], ir.rows[p].text)
            && l.messages[k].from == ir.rows[p].from && l.messages[k].to == ir.rows[p].to
            && l.messages[k].dashed == (ir.rows[p].line == Dashed) && l.messages[k].head == ir.rows[p].head
            && (l.messages[k].framed <==> FrameStack(ir.rows[..p]) != [])
  {
    hide Lifelines, Ready, PlaceRows, PlaceActors, PlacedLifelines, LayoutBetween, MessageSet, TopOf, PlaceMessage;
    hide FrameStack, MessageRows, Nesting, Distinct;
    var env, rows := EnvOf(fonts, ir), ir.rows;
    IsReady(fonts, ir);
    ReadyRow(env, rows, p);
    var dx := BetweenShape(env, rows);
    var y := TopOf(env) + 24.0;
    PlacedAt(env, y, rows, p);
    StackIsFrameStack(env, y, rows[..p]);
    var sp := PlaceRows(env, y, rows[..p]);
    var m := PlaceMessage(env, sp.y, rows[p], sp.stack != []);
    MessageIsSet(env, sp.y, rows[p], sp.stack != []);
    SaysItsRow(env, sp.y, rows[p], sp.stack != []);
    MessageSetMoves(fonts, m, rows[p].text, dx);
  }

  lemma SaysItsRow(env: Env, y: real, r: Row, framed: bool)
    requires env.Valid() && r.Message? && KnownRow(env.actors, r)
    ensures var m := PlaceMessage(env, y, r, framed);
            m.from == r.from && m.to == r.to && m.dashed == (r.line == Dashed) && m.head == r.head
  {
    hide Measured, Col;
  }

  /** And a note written, between the lifelines it names. */
  lemma NotesRead(fonts: Fonts, ir: SequenceIR, p: nat)
    requires WellFormed(ir) && p < |ir.rows| && ir.rows[p].Note?
    ensures KnownRow(ir.actors, ir.rows[p])
    ensures var l, k := Layout(fonts, ir), |NoteRows(ir.rows[..p])|;
            var i, j := Col(ir.actors, ir.rows[p].from), Col(ir.actors, ir.rows[p].to);
            && k < |l.notes| && |l.lifelines| == |ir.actors|
            && NoteSet(fonts, l.notes[k], ir.rows[p], l.lifelines[i].x, l.lifelines[j].x)
  {
    hide Lifelines, Ready, PlaceRows, PlaceActors, PlacedLifelines, LayoutBetween, NoteSet, TopOf, PlaceNote;
    hide NoteRows, Nesting, Distinct;
    var env, rows := EnvOf(fonts, ir), ir.rows;
    IsReady(fonts, ir);
    ReadyRow(env, rows, p);
    var dx := BetweenShape(env, rows);
    var y := TopOf(env) + 24.0;
    PlacedAt(env, y, rows, p);
    var sp := PlaceRows(env, y, rows[..p]);
    NoteIsSet(env, sp.y, rows[p]);
    NoteSetMoves(env, PlaceNote(env, sp.y, rows[p]), rows[p], PlacedLifelines(env, rows), dx);
  }

  lemma NoteSetMoves(env: Env, n: SeqNote, r: Row, lifelines: seq<SeqLifeline>, dx: real)
    requires env.Valid() && r.Note? && KnownRow(env.actors, r) && LifelinesOf(env, lifelines)
    requires NoteSet(env.fonts, n, r, env.xs[Col(env.actors, r.from)], env.xs[Col(env.actors, r.to)])
    ensures var lines := MovedLifelines(lifelines, dx);
            && |lines| == |env.actors|
            && NoteSet(env.fonts, MoveNote(n, dx), r, lines[Col(env.actors, r.from)].x, lines[Col(env.actors, r.to)].x)
  {
    hide Wrapped, LinesWithin, SomeTakes, Col;
  }

  // ---- frames ----

  /** A frame's title: its keyword and condition in the small mono, 14 a line and one at least,
      no wider than they take; a divider's condition likewise, 6 under its line; both, once
      the frame is closed, 12 in from its left. */
  ghost predicate FrameSet(adv: Advance, f: SeqFrame) {
    && f.title.y == f.box.y + 8.0
    && f.title.h == 14.0 * (if |f.cond| >= 1 then |f.cond| else 1) as real
    && TitleSnug(adv, f) && (Shut(f) ==> f.title.x == f.box.x + 12.0)
    && forall e :: 0 <= e < |f.dividers| ==> ConditionSet(adv, f, f.dividers[e])
  }

  ghost predicate TitleSnug(adv: Advance, f: SeqFrame) {
    var kw := Up(TextWidth(adv, f.keyword, RAMP_LABEL, Mono));
    if f.cond == [] then f.title.w == kw
    else
      var gap := TextWidth(adv, "  ", RAMP_LABEL, Mono);
      && LinesWithin(adv, f.cond, RAMP_LABEL, Mono, f.title.w - kw - gap)
      && (f.title.w < kw + gap + 1.0 || SomeTakes(adv, f.cond, RAMP_LABEL, Mono, f.title.w - kw - gap))
  }

  ghost predicate ConditionSet(adv: Advance, f: SeqFrame, d: FrameDivider) {
    d.caption.Some? ==>
      var t := d.caption.value;
      && t.face == Mono && t.size == RAMP_LABEL && t.box.y == d.y + 6.0
      && SnugLines(adv, t.lines, RAMP_LABEL, Mono, t.box.w) && t.box.h == |t.lines| as real * 14.0
      && (Shut(f) ==> t.box.x == f.box.x + 12.0)
  }

  ghost predicate FramesSet(adv: Advance, s: State) {
    forall k :: 0 <= k < |s.frames| ==> FrameSet(adv, s.frames[k])
  }

  lemma OpenedSet(fonts: Fonts, y: real, r: Row)
    requires r.Frame?
    ensures FrameSet(fonts.adv, OpenFrame(fonts, y, r))
  {
    hide Wrapped, TextWidth, Up;
    var f := OpenFrame(fonts, y, r);
    var kw, gap := Up(TextWidth(fonts.adv, r.keyword, RAMP_LABEL, Mono)), TextWidth(fonts.adv, "  ", RAMP_LABEL, Mono);
    WidestOne(fonts.adv, f.cond, RAMP_LABEL, Mono);
    UpSnug(kw + gap + Widest(fonts.adv, f.cond, RAMP_LABEL, Mono));
    UpUp(TextWidth(fonts.adv, r.keyword, RAMP_LABEL, Mono));
  }

  lemma UpUp(w: real)
    ensures Up(Up(w)) == Up(w)
  {
    hide Up;
    var a, b := Up(Up(w)).Floor, Up(w).Floor;
    assert a as real == Up(Up(w)) && b as real == Up(w);
    WholeStays(a, b);
  }

  lemma WholeStays(a: int, b: int)
    requires b as real <= a as real < b as real + 1.0
    ensures a == b
  {
    assert a < b + 1;
  }

  lemma DividedSet(env: Env, s: State, r: Row)
    requires env.Valid() && s.Valid(env) && r.Divider? && s.stack != [] && FramesSet(env.fonts.adv, s) && FramesOk(s)
    ensures FramesSet(env.fonts.adv, Divide(env, s, r))
  {
    hide Measured, TitleSnug, SnugLines, Wrapped;
    if r.text != "" {
      MeasuredSnug(env.fonts, r.text, COND_MAX, COND_STYLE);
    }
    var open := s.stack[|s.stack| - 1];
    var f, after := s.frames[open.f], Divide(env, s, r);
    assert FrameSet(env.fonts.adv, f);
    StackOpen(s, |s.stack| - 1);
    forall k | 0 <= k < |after.frames| ensures FrameSet(env.fonts.adv, after.frames[k]) {
      assert FrameSet(env.fonts.adv, s.frames[k]);
      if k == open.f {
        SnugKept(env.fonts.adv, f, after.frames[k]);
        forall e | 0 <= e < |after.frames[k].dividers|
          ensures ConditionSet(env.fonts.adv, after.frames[k], after.frames[k].dividers[e])
        {
          assert e < |f.dividers| ==> ConditionSet(env.fonts.adv, f, f.dividers[e]);
        }
      }
    }
  }

  /** A frame on the stack is not closed yet. */
  lemma StackOpen(s: State, d: nat)
    requires FramesOk(s) && d < |s.stack|
    ensures s.stack[d].f < |s.frames| && !Shut(s.frames[s.stack[d].f])
  {
  }

  lemma ClosedSet(env: Env, s: State)
    requires env.Valid() && s.Valid(env) && s.stack != [] && FramesSet(env.fonts.adv, s)
    ensures FramesSet(env.fonts.adv, Close(env, s))
  {
    hide TitleSnug, SnugLines, FrameXs, BoxesLeft, BoxesRight, DividersRight, Hold;
    var open := s.stack[|s.stack| - 1];
    var f, after := s.frames[open.f], Close(env, s);
    forall k | 0 <= k < |after.frames| ensures FrameSet(env.fonts.adv, after.frames[k]) {
      assert FrameSet(env.fonts.adv, s.frames[k]);
      if k == open.f {
        assert TitleSnug(env.fonts.adv, after.frames[k]) by { SnugKept(env.fonts.adv, f, after.frames[k]); }
        forall e | 0 <= e < |after.frames[k].dividers|
          ensures ConditionSet(env.fonts.adv, after.frames[k], after.frames[k].dividers[e])
        {
          assert ConditionSet(env.fonts.adv, f, f.dividers[e]);
        }
      }
    }
  }

  lemma SnugKept(adv: Advance, f: SeqFrame, g: SeqFrame)
    requires TitleSnug(adv, f) && g.keyword == f.keyword && g.cond == f.cond && g.title.w == f.title.w
    ensures TitleSnug(adv, g)
  {
  }

  lemma RowKeepsSet(env: Env, s: State, r: Row)
    requires env.Valid() && s.Valid(env) && KnownRow(env.actors, r) && FramesSet(env.fonts.adv, s) && FramesOk(s)
    ensures FramesSet(env.fonts.adv, PlaceRow(env, s, r))
  {
    hide FrameSet, Divide, Close, PlaceMessage, PlaceNote, Hold, FramesOk, OpenFrame;
    match r
    case Frame(_, _) => OpenedSet(env.fonts, s.y, r);
    case Divider(_, _) => if s.stack != [] { DividedSet(env, s, r); }
    case End => if s.stack != [] { ClosedSet(env, s); }
    case _ =>
  }

  lemma {:induction false} RowsKeepSet(env: Env, y: real, rows: seq<Row>)
    requires env.Valid() && KnownEnds(env.actors, rows)
    ensures FramesSet(env.fonts.adv, PlaceRows(env, y, rows)) && FramesOk(PlaceRows(env, y, rows))
  {
    hide PlaceRow, FramesSet, FramesOk;
    if rows == [] {
      assert FramesSet(env.fonts.adv, State(y, [], [], [], [])) && FramesOk(State(y, [], [], [], [])) by {
        NothingSet(env.fonts.adv, y);
      }
    } else {
      var init, last := rows[..|rows| - 1], rows[|rows| - 1];
      assert last in rows;
      RowsKeepSet(env, y, init);
      FramesKept(env, PlaceRows(env, y, init), last);
      RowKeepsSet(env, PlaceRows(env, y, init), last);
    }
  }

  lemma NothingSet(adv: Advance, y: real)
    ensures FramesSet(adv, State(y, [], [], [], [])) && FramesOk(State(y, [], [], [], []))
  {
  }

  /** Every frame's title, and every condition in it, is set so in the finished drawing, and
      every frame is closed. */
  lemma FramesRead(fonts: Fonts, ir: SequenceIR, f: nat)
    requires WellFormed(ir) && f < |Layout(fonts, ir).frames|
    ensures FrameSet(fonts.adv, Layout(fonts, ir).frames[f]) && Shut(Layout(fonts, ir).frames[f])
  {
    hide Lifelines, Ready, PlaceRows, PlaceActors, PlacedLifelines, LayoutBetween, FrameSet, TopOf, Good, Nesting;
    hide Distinct;
    var env, rows := EnvOf(fonts, ir), ir.rows;
    IsReady(fonts, ir);
    assert env.Valid() && KnownEnds(env.actors, rows) by { KnownOf(fonts, ir); }
    var dx := BetweenShape(env, rows);
    RowsKeepSet(env, TopOf(env) + 24.0, rows);
    PlacedGood(env, rows);
    AllShut(Placed(env, rows), f);
    FrameSetMoves(fonts.adv, Placed(env, rows).frames[f], dx);
  }

  lemma KnownOf(fonts: Fonts, ir: SequenceIR)
    requires WellFormed(ir)
    ensures EnvOf(fonts, ir).Valid() && KnownEnds(ir.actors, ir.rows)
  {
    hide Lifelines;
  }

  lemma FrameSetMoves(adv: Advance, f: SeqFrame, dx: real)
    requires FrameSet(adv, f) && Shut(f)
    ensures FrameSet(adv, MoveFrame(f, dx)) && Shut(MoveFrame(f, dx))
  {
    hide SnugLines, TitleSnug;
    var g := MoveFrame(f, dx);
    SnugKept(adv, f, g);
    forall e | 0 <= e < |g.dividers| ensures ConditionSet(adv, g, g.dividers[e]) {
      assert ConditionSet(adv, f, f.dividers[e]);
    }
  }

  // ---- what the lifelines span ----

  predicate RowsSpanned(s: State, top: real) {
    && top <= s.y
    && (forall k :: 0 <= k < |s.messages| ==> top <= FirstY(s.messages[k]) && LastY(s.messages[k]) + 18.0 <= s.y)
    && (forall k :: 0 <= k < |s.notes| ==> top <= s.notes[k].box.y && Foot(s.notes[k].box) + 18.0 <= s.y)
  }

  lemma MessageSpans(env: Env, y: real, r: Row, framed: bool)
    requires env.Valid() && r.Message? && KnownRow(env.actors, r)
    ensures var m := PlaceMessage(env, y, r, framed); y <= FirstY(m) && LastY(m) + 18.0 == BelowMessage(env, y, r)
  {
    hide Measured, Col;
  }

  lemma RowSpans(env: Env, s: State, r: Row, top: real)
    requires env.Valid() && s.Valid(env) && KnownRow(env.actors, r) && RowsSpanned(s, top)
    ensures RowsSpanned(PlaceRow(env, s, r), top)
  {
    RowTextBand(env, s, r);
    if r.Message? {
      MessageSpans(env, s.y, r, s.stack != []);
      hide PlaceMessage, Hold, BelowMessage, Col;
    } else if r.Divider? || r.End? {
      DividerOrEndShape(env, s, r);
      hide PlaceRow;
    } else {
      hide Hold, Measured, OpenFrame, Col;
    }
  }

  lemma {:induction false} RowsSpan(env: Env, y: real, rows: seq<Row>)
    requires env.Valid() && KnownEnds(env.actors, rows)
    ensures RowsSpanned(PlaceRows(env, y, rows), y)
  {
    hide PlaceRow;
    if rows != [] {
      var init, last := rows[..|rows| - 1], rows[|rows| - 1];
      assert last in rows;
      RowsSpan(env, y, init);
      RowSpans(env, PlaceRows(env, y, init), last, y);
    }
  }

  /** A lifeline runs from 24 above whatever is first to 16 under whatever is last, and the
      canvas ends 24 under it. */
  lemma LifelinesSpan(fonts: Fonts, ir: SequenceIR, i: nat)
    requires WellFormed(ir) && i < |ir.actors|
    ensures var l := Layout(fonts, ir);
            && |l.lifelines| == |ir.actors|
            && l.lifelines[i].y2 + 24.0 <= l.height < l.lifelines[i].y2 + 25.0
            && (forall k :: 0 <= k < |l.messages| ==> l.lifelines[i].y1 + 24.0 <= FirstY(l.messages[k])
                                                      && LastY(l.messages[k]) + 16.0 <= l.lifelines[i].y2)
            && (forall k :: 0 <= k < |l.notes| ==> l.lifelines[i].y1 + 24.0 <= l.notes[k].box.y
                                                   && Foot(l.notes[k].box) + 16.0 <= l.lifelines[i].y2)
  {
    hide Lifelines, Ready, PlaceRows, PlaceActors, LayoutBetween, TopOf, Nesting, Distinct;
    var env, rows := EnvOf(fonts, ir), ir.rows;
    IsReady(fonts, ir);
    assert env.Valid() && KnownEnds(env.actors, rows) by { KnownOf(fonts, ir); }
    var dx := BetweenShape(env, rows);
    RowsSpan(env, TopOf(env) + 24.0, rows);
    HeightIs(env, rows);
    SpansMove(Placed(env, rows), Layout(fonts, ir), dx);
  }

  lemma HeightIs(env: Env, rows: seq<Row>)
    requires Ready(env, rows)
    ensures var b := BottomOf(Placed(env, rows)); b + 24.0 <= LayoutBetween(env, rows).height < b + 25.0
  {
    hide PlaceRows, Ready, PlaceActors, Up;
    UpSnug(BottomOf(Placed(env, rows)) + MARGIN);
  }

  lemma SpansMove(s: State, l: SequenceLayout, dx: real)
    requires DrawnFrom(l, s, dx)
    ensures |l.messages| == |s.messages| && |l.notes| == |s.notes|
    ensures forall k :: 0 <= k < |s.messages| ==> FirstY(l.messages[k]) == FirstY(s.messages[k])
                                                  && LastY(l.messages[k]) == LastY(s.messages[k])
    ensures forall k :: 0 <= k < |s.notes| ==> l.notes[k].box.y == s.notes[k].box.y
                                               && Foot(l.notes[k].box) == Foot(s.notes[k].box)
  {
  }

  // ---- why lifelines stand apart ----

  /** Two neighbours' boxes ask for half of each and 24. */
  predicate BoxesAsk(plates: seq<Plate>, c: Constraint) {
    && c.b == c.a + 1 && c.b < |plates| && c.need == plates[c.a].w / 2.0 + plates[c.b].w / 2.0 + 24.0
  }

  /** A message between two participants asks for its text and 16 on either side; one to itself
      for its loop, its text, 8 between and 16 past it, to the next; a note beside one for itself
      and 12 on either side, on its own side. */
  predicate RowAsks(fonts: Fonts, actors: seq<Actor>, r: Row, c: Constraint)
    requires KnownRow(actors, r)
  {
    match r
    case Message(from, to, text, _, _) =>
      var i, j, w := Col(actors, from), Col(actors, to), WidthOf(RowBlock(fonts, r));
      if i == j then c == Constraint(i, i + 1, 24.0 + 8.0 + w + 16.0)
      else {c.a, c.b} == {i, j} && c.a < c.b && c.need == w + 32.0
    case Note(from, _, side, _) =>
      var i, w := Col(actors, from), Max(80.0, RowBlock(fonts, r).value.w + 24.0);
      && c.need == w + 24.0
      && ((side == RightOf && c.a == i && c.b == i + 1) || (side == LeftOf && c.b == i && c.a + 1 == i))
    case _ => false
  }

  lemma RowConsAsk(fonts: Fonts, actors: seq<Actor>, r: Row)
    requires KnownRow(actors, r)
    ensures forall c <- RowCons(fonts, actors, r) :: RowAsks(fonts, actors, r, c)
  {
    hide Measured, Col;
  }

  lemma {:induction false} AllRowConsAsk(fonts: Fonts, actors: seq<Actor>, rows: seq<Row>)
    requires KnownEnds(actors, rows)
    ensures forall c <- AllRowCons(fonts, actors, rows) ::
              exists p :: 0 <= p < |rows| && KnownRow(actors, rows[p]) && RowAsks(fonts, actors, rows[p], c)
  {
    hide RowCons, RowAsks;
    if rows != [] {
      var n := |rows| - 1;
      assert rows[n] in rows;
      AllRowConsAsk(fonts, actors, rows[..n]);
      RowConsAsk(fonts, actors, rows[n]);
      forall c | c in AllRowCons(fonts, actors, rows)
        ensures exists p :: 0 <= p < |rows| && KnownRow(actors, rows[p]) && RowAsks(fonts, actors, rows[p], c)
      {
        if c in AllRowCons(fonts, actors, rows[..n]) {
          var p :| 0 <= p < n && KnownRow(actors, rows[..n][p]) && RowAsks(fonts, actors, rows[..n][p], c);
          assert rows[p] == rows[..n][p];
        } else {
          assert RowAsks(fonts, actors, rows[n], c);
        }
      }
    }
  }

  lemma {:induction false} NeighboursAsk(plates: seq<Plate>, k: nat)
    requires k < |plates|
    ensures forall c <- NeighbourCons(plates, k) :: BoxesAsk(plates, c)
  {
    hide BoxesAsk;
    if k > 0 {
      NeighboursAsk(plates, k - 1);
      NeighbourAsks(plates, k);
    }
  }

  lemma NeighbourAsks(plates: seq<Plate>, k: nat)
    requires 0 < k < |plates|
    ensures BoxesAsk(plates, Constraint(k - 1, k, plates[k - 1].w / 2.0 + plates[k].w / 2.0 + COL_GAP))
  {
  }

  /** Lifelines stand where they are asked to and no further apart: every constraint they meet is
      two neighbours' boxes' or a row's. */
  lemma LifelinesAsked(fonts: Fonts, ir: SequenceIR) returns (cons: seq<Constraint>)
    requires WellFormed(ir)
    ensures Spans(|ir.actors|, cons) && Lifelines(fonts, ir) == ColumnsOf(|ir.actors|, cons)
    ensures forall c <- cons ::
              || BoxesAsk(Plates(fonts, ir.actors), c)
              || exists p :: 0 <= p < |ir.rows| && KnownRow(ir.actors, ir.rows[p])
                             && RowAsks(fonts, ir.actors, ir.rows[p], c)
  {
    hide Plates, RowAsks, AllRowCons, NeighbourCons, ColumnsOf;
    var plates := Plates(fonts, ir.actors);
    NeighboursAsk(plates, |plates| - 1);
    AllRowConsAsk(fonts, ir.actors, ir.rows);
    cons := NeighbourCons(plates, |plates| - 1) + AllRowCons(fonts, ir.actors, ir.rows);
  }
}
