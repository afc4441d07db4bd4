// Where everything in a sequence diagram goes: ui/src/diagramSequence.ts.
module SequenceLayout {
  import opened Geometry
  import opened DiagramTheme
  import opened SequenceIR
  import opened SequenceColumns

  /** The text measure, and which labels are set as a name from the code. */
  datatype Fonts = Fonts(adv: Advance, code: string -> bool)

  datatype Style = Style(face: Face, size: Size, lineH: real)

  /** A label wrapped and measured, not yet placed. */
  datatype Block = Block(lines: seq<string>, face: Face, size: Size, w: real, h: real)

  datatype TextBlock = TextBlock(lines: seq<string>, face: Face, size: Size, box: Rect)

  datatype SeqActor = SeqActor(id: string, lines: seq<string>, face: Face, size: Size, bold: bool, box: Rect)
  datatype SeqLifeline = SeqLifeline(id: string, x: real, y1: real, y2: real)
  datatype SeqMessage =
    SeqMessage(from: string, to: string, points: seq<Point>, dashed: bool, head: Head,
               caption: Option<TextBlock>, self: bool, framed: bool)
  datatype SeqNote = SeqNote(lines: seq<string>, beside: Option<string>, box: Rect)
  datatype FrameDivider = FrameDivider(y: real, caption: Option<TextBlock>)
  datatype SeqFrame =
    SeqFrame(keyword: string, cond: seq<string>, box: Rect, title: Rect, dividers: seq<FrameDivider>)
  datatype SequenceLayout =
    SequenceLayout(width: real, height: real, actors: seq<SeqActor>, lifelines: seq<SeqLifeline>,
                   messages: seq<SeqMessage>, notes: seq<SeqNote>, frames: seq<SeqFrame>)

  const MARGIN := 24.0
  const BOX_PAD := 16.0
  const BOX_MIN := 96.0
  const NAME_MAX := 160.0
  const COL_GAP := 24.0
  const TEXT_LINE := 16.0
  const TEXT_MAX := 180.0
  const TEXT_PAD := 16.0
  const TEXT_GAP := 8.0
  const ROW_GAP := 18.0
  const SELF_W := 24.0
  const SELF_H := 18.0
  const SELF_GAP := 8.0
  const NOTE_PAD := 12.0
  const NOTE_MAX := 240.0
  const NOTE_MIN := 80.0
  const NOTE_GAP := 12.0
  const NOTE_REACH := 24.0
  const FRAME_PAD := 16.0
  const TITLE_INSET := 12.0
  const NEST_INSET := TITLE_INSET
  const TITLE_PAD := 8.0
  const COND_LINE := 14.0
  const COND_MAX := 220.0
  const DIVIDER_GAP := 6.0

  function MessageStyle(fonts: Fonts, text: string): Style {
    if fonts.code(text) then Style(Mono, RAMP_CODE, TEXT_LINE) else Style(Sans, RAMP_TEXT, TEXT_LINE)
  }

  const NOTE_STYLE := Style(Sans, RAMP_TEXT, LINE_HEIGHT)
  const COND_STYLE := Style(Mono, RAMP_LABEL, COND_LINE)

  /** The widest of some lines, none narrower than 0. */
  function Widest(adv: Advance, lines: seq<string>, size: Size, face: Face): (w: real)
    ensures w >= 0.0
    ensures forall line <- lines :: TextWidth(adv, line, size, face) <= w
  {
    if lines == [] then 0.0
    else Max(TextWidth(adv, lines[0], size, face), Widest(adv, lines[1..], size, face))
  }

  /** text(): a label wrapped at max and measured. */
  function Measured(fonts: Fonts, text: string, max: real, s: Style): (b: Block)
    ensures b.w >= 0.0 && (s.lineH >= 0.0 ==> b.h >= s.lineH)
  {
    var lines := Wrapped(fonts.adv, text, max, s.size, s.face);
    Taller(|lines|, s.lineH);
    Block(lines, s.face, s.size, Up(Widest(fonts.adv, lines, s.size, s.face)), |lines| as real * s.lineH)
  }

  lemma Taller(n: nat, lineH: real)
    requires n >= 1
    ensures lineH >= 0.0 ==> n as real * lineH >= lineH
  {
    if lineH >= 0.0 {
      assert (n - 1) as real * lineH >= 0.0;
      assert n as real == (n - 1) as real + 1.0;
    }
  }

  function Put(b: Block, x: real, y: real): TextBlock {
    TextBlock(b.lines, b.face, b.size, Rect(x, y, b.w, b.h))
  }

  // ---- participants and columns ----

  /** A participant's name, wrapped, and how wide its box is. */
  datatype Plate = Plate(face: Face, size: Size, bold: bool, lines: seq<string>, w: real)

  function PlateOf(fonts: Fonts, a: Actor): Plate {
    var code := fonts.code(a.text);
    var face := if code then Mono else Sans;
    var size := if code then RAMP_CODE else RAMP_BOLD;
    var lines := Wrapped(fonts.adv, a.text, NAME_MAX, size, face);
    var tw := Widest(fonts.adv, lines, size, face);
    Plate(face, size, !code, lines, Max(BOX_MIN, Up(tw + 2.0 * BOX_PAD)))
  }

  function MapSeq<A, B>(f: A -> B, s: seq<A>): (r: seq<B>)
    ensures |r| == |s| && forall i :: 0 <= i < |s| ==> r[i] == f(s[i])
  {
    seq(|s|, i requires 0 <= i < |s| => f(s[i]))
  }

  function Plates(fonts: Fonts, actors: seq<Actor>): (plates: seq<Plate>)
    ensures |plates| == |actors| && forall i :: 0 <= i < |actors| ==> plates[i] == PlateOf(fonts, actors[i])
  {
    MapSeq((a: Actor) => PlateOf(fonts, a), actors)
  }

  function MostLines(plates: seq<Plate>): nat {
    if plates == [] then 0
    else
      var rest := MostLines(plates[1..]);
      if |plates[0].lines| >= rest then |plates[0].lines| else rest
  }

  function HeadHeight(plates: seq<Plate>): (h: real)
    ensures h >= 22.0
  {
    MostLines(plates) as real * LINE_HEIGHT + 22.0
  }

  /** The lifeline an id stands for; the last when an id is listed twice. */
  function Col(actors: seq<Actor>, id: string): (i: nat)
    requires id in Ids(actors)
    ensures i < |actors| && actors[i].id == id
  {
    var last := |actors| - 1;
    if actors[last].id == id then last else Col(actors[..last], id)
  }

  predicate KnownRow(actors: seq<Actor>, r: Row) {
    r.Message? || r.Note? ==> r.from in Ids(actors) && r.to in Ids(actors)
  }

  function RowBlock(fonts: Fonts, r: Row): (b: Option<Block>)
    ensures b.Some? ==> b.value.w >= 0.0 && b.value.h >= TEXT_LINE
    ensures r.Note? ==> b.Some?
  {
    match r
    case Message(_, _, text, _, _) =>
      if text != "" then Some(Measured(fonts, text, TEXT_MAX, MessageStyle(fonts, text))) else None
    case Note(_, _, _, text) => Some(Measured(fonts, text, NOTE_MAX, NOTE_STYLE))
    case _ => None
  }

  function WidthOf(b: Option<Block>): real {
    if b.Some? then b.value.w else 0.0
  }

  function NoteWidth(b: Block): real {
    Max(NOTE_MIN, b.w + 2.0 * NOTE_PAD)
  }

  function NeighbourCons(plates: seq<Plate>, k: nat): (cons: seq<Constraint>)
    requires k < |plates|
    ensures Spans(|plates|, cons)
    ensures forall i :: 0 <= i < k ==> Constraint(i, i + 1, plates[i].w / 2.0 + plates[i + 1].w / 2.0 + COL_GAP) in cons
  {
    if k == 0 then []
    else
      NeighbourCons(plates, k - 1)
      + [Constraint(k - 1, k, plates[k - 1].w / 2.0 + plates[k].w / 2.0 + COL_GAP)]
  }

  /** The room one row needs between lifelines. */
  function RowCons(fonts: Fonts, actors: seq<Actor>, r: Row): (cons: seq<Constraint>)
    requires KnownRow(actors, r)
    ensures Spans(|actors|, cons)
  {
    var t := RowBlock(fonts, r);
    match r
    case Message(from, to, _, _, _) =>
      var i, j := Col(actors, from), Col(actors, to);
      if i == j then
        if i + 1 < |actors| then [Constraint(i, i + 1, SELF_W + SELF_GAP + WidthOf(t) + TEXT_PAD)] else []
      else
        [Constraint(if i < j then i else j, if i < j then j else i, WidthOf(t) + 2.0 * TEXT_PAD)]
    case Note(from, _, side, _) =>
      var i := Col(actors, from);
      if side == RightOf && i + 1 < |actors| then [Constraint(i, i + 1, 2.0 * NOTE_GAP + NoteWidth(t.value))]
      else if side == LeftOf && i > 0 then [Constraint(i - 1, i, 2.0 * NOTE_GAP + NoteWidth(t.value))]
      else []
    case _ => []
  }

  function AllRowCons(fonts: Fonts, actors: seq<Actor>, rows: seq<Row>): (cons: seq<Constraint>)
    requires KnownEnds(actors, rows)
    ensures Spans(|actors|, cons)
  {
    if rows == [] then []
    else AllRowCons(fonts, actors, rows[..|rows| - 1]) + RowCons(fonts, actors, rows[|rows| - 1])
  }

  function Lifelines(fonts: Fonts, ir: SequenceIR): (xs: seq<real>)
    requires ir.actors != [] && KnownEnds(ir.actors, ir.rows)
    ensures |xs| == |ir.actors|
  {
    var plates := Plates(fonts, ir.actors);
    ColumnsOf(|plates|, NeighbourCons(plates, |plates| - 1) + AllRowCons(fonts, ir.actors, ir.rows))
  }

  // ---- the rows, top to bottom ----

  /** What placing rows reads: the participants and where their lifelines stand. */
  datatype Env = Env(fonts: Fonts, actors: seq<Actor>, xs: seq<real>) {
    predicate Valid() {
      |xs| == |actors| >= 1
    }
  }

  /** An open frame: which it is, the lifelines and boxes it holds so far, and
      the highest its next divider may sit. */
  datatype Open = Open(f: nat, cols: set<nat>, boxes: seq<Rect>, floor: real)

  datatype State = State(y: real, messages: seq<SeqMessage>, notes: seq<SeqNote>, frames: seq<SeqFrame>,
                         stack: seq<Open>) {
    predicate Valid(env: Env) {
      && (forall i :: 0 <= i < |stack| ==> stack[i].f < |frames|)
      && (forall i :: 0 <= i < |stack| ==> forall c <- stack[i].cols :: c < |env.xs|)
    }
  }

  function PlaceMessage(env: Env, y: real, r: Row, framed: bool): SeqMessage
    requires env.Valid() && r.Message? && KnownRow(env.actors, r)
  {
    var t := RowBlock(env.fonts, r);
    var i, j := Col(env.actors, r.from), Col(env.actors, r.to);
    if i == j then
      var x := env.xs[i];
      var h := LoopHeight(t);
      SeqMessage(r.from, r.to,
                 [Point(x, y), Point(x + SELF_W, y), Point(x + SELF_W, y + h), Point(x, y + h)],
                 r.line == Dashed, r.head,
                 if t.Some? then Some(Put(t.value, x + SELF_W + SELF_GAP, y + h / 2.0 - t.value.h / 2.0)) else None,
                 true, framed)
    else
      var lineY := LineY(y, t);
      SeqMessage(r.from, r.to,
                 [Point(env.xs[i], lineY), Point(env.xs[j], lineY)],
                 r.line == Dashed, r.head,
                 if t.Some? then Some(Put(t.value, (env.xs[i] + env.xs[j]) / 2.0 - t.value.w / 2.0, y)) else None,
                 false, framed)
  }

  function LoopHeight(t: Option<Block>): real {
    Max(SELF_H, if t.Some? then t.value.h else 0.0)
  }

  function LineY(y: real, t: Option<Block>): real {
    if t.Some? then y + t.value.h + TEXT_GAP else y + 6.0
  }

  /** Where the row after a message starts. */
  function BelowMessage(env: Env, y: real, r: Row): real
    requires env.Valid() && r.Message? && KnownRow(env.actors, r)
  {
    var t := RowBlock(env.fonts, r);
    if Col(env.actors, r.from) == Col(env.actors, r.to) then y + LoopHeight(t) + ROW_GAP else LineY(y, t) + ROW_GAP
  }

  function PlaceNote(env: Env, y: real, r: Row): SeqNote
    requires env.Valid() && r.Note? && KnownRow(env.actors, r)
  {
    var t := RowBlock(env.fonts, r).value;
    var i, j := Col(env.actors, r.from), Col(env.actors, r.to);
    var w := NoteWidth(t);
    var h := |t.lines| as real * LINE_HEIGHT + 14.0;
    match r.side
    case LeftOf => SeqNote(t.lines, Some(r.from), Rect(env.xs[i] - NOTE_GAP - w, y, w, h))
    case RightOf => SeqNote(t.lines, Some(r.from), Rect(env.xs[i] + NOTE_GAP, y, w, h))
    case Over =>
      var lo, hi := Min(env.xs[i], env.xs[j]), Max(env.xs[i], env.xs[j]);
      var wide := if i != j then Max(w, hi - lo + 2.0 * NOTE_REACH) else w;
      SeqNote(t.lines, None, Rect((lo + hi) / 2.0 - wide / 2.0, y, wide, h))
  }

  function TitleHeight(cond: seq<string>): (h: real)
    ensures h >= COND_LINE
  {
    Taller(if |cond| >= 1 then |cond| else 1, COND_LINE);
    (if |cond| >= 1 then |cond| else 1) as real * COND_LINE
  }

  function OpenFrame(fonts: Fonts, y: real, r: Row): SeqFrame
    requires r.Frame?
  {
    var kw := Up(TextWidth(fonts.adv, r.keyword, RAMP_LABEL, Mono));
    var cond := if r.text == "" then [] else Measured(fonts, r.text, COND_MAX, COND_STYLE).lines;
    var condW := Widest(fonts.adv, cond, RAMP_LABEL, Mono);
    var gap := TextWidth(fonts.adv, "  ", RAMP_LABEL, Mono);
    var w := Up(if |cond| > 0 then kw + gap + condW else kw);
    SeqFrame(r.keyword, cond, Rect(0.0, y, 0.0, 0.0), Rect(0.0, y + TITLE_PAD, w, TitleHeight(cond)), [])
  }

  function DividerY(y: real, floor: real): real {
    Max(y - ROW_GAP / 2.0, floor)
  }

  function PlaceDivider(fonts: Fonts, lineY: real, r: Row): FrameDivider
    requires r.Divider?
  {
    if r.text == "" then FrameDivider(lineY, None)
    else FrameDivider(lineY, Some(Put(Measured(fonts, r.text, COND_MAX, COND_STYLE), 0.0, lineY + DIVIDER_GAP)))
  }

  /** The foot of what a divider draws: its text, or its line. */
  function DividerFoot(d: FrameDivider): real {
    if d.caption.Some? then d.caption.value.box.y + d.caption.value.box.h else d.y
  }

  /** The lifelines' xs a set of columns picks. */
  function Picked(xs: seq<real>, cols: set<nat>): (r: seq<real>)
    ensures forall i :: 0 <= i < |xs| && i in cols ==> xs[i] in r
    ensures forall v <- r :: v in xs
  {
    if xs == [] then []
    else
      var last := |xs| - 1;
      Picked(xs[..last], cols) + if last in cols then [xs[last]] else []
  }

  /** The lifelines a frame spans: its rows' own; with none, those of the frame it stands in;
      with none there either, every one. */
  function FrameXs(env: Env, open: Open, parent: Option<Open>): (r: seq<real>)
    requires env.Valid() && (forall c <- open.cols :: c < |env.xs|)
    requires parent.Some? ==> forall c <- parent.value.cols :: c < |env.xs|
    ensures r != []
  {
    if open.cols != {} then
      assert exists c :: c in open.cols && c < |env.xs|;
      Picked(env.xs, open.cols)
    else if parent.Some? && parent.value.cols != {} then
      assert exists c :: c in parent.value.cols && c < |env.xs|;
      Picked(env.xs, parent.value.cols)
    else env.xs
  }

  function BoxesLeft(boxes: seq<Rect>, x0: real): (r: real)
    ensures r <= x0 && forall b <- boxes :: r <= b.x - TITLE_INSET
  {
    if boxes == [] then x0
    else Min(BoxesLeft(boxes[..|boxes| - 1], x0), boxes[|boxes| - 1].x - TITLE_INSET)
  }

  function BoxesRight(boxes: seq<Rect>, x1: real): (r: real)
    ensures r >= x1 && forall b <- boxes :: b.x + b.w + TITLE_INSET <= r
  {
    if boxes == [] then x1
    else Max(BoxesRight(boxes[..|boxes| - 1], x1), boxes[|boxes| - 1].x + boxes[|boxes| - 1].w + TITLE_INSET)
  }

  function DividersRight(dividers: seq<FrameDivider>, x0: real, x1: real): (r: real)
    ensures r >= x1
    ensures forall d <- dividers :: d.caption.Some? ==> x0 + TITLE_INSET + d.caption.value.box.w + TITLE_INSET <= r
  {
    if dividers == [] then x1
    else
      var before := DividersRight(dividers[..|dividers| - 1], x0, x1);
      var d := dividers[|dividers| - 1];
      if d.caption.Some? then Max(before, x0 + TITLE_INSET + d.caption.value.box.w + TITLE_INSET) else before
  }

  function MoveDivider(d: FrameDivider, x: real): FrameDivider {
    if d.caption.Some? then d.(caption := Some(d.caption.value.(box := d.caption.value.box.(x := x)))) else d
  }

  /** A frame closed under what it holds: as tall as its rows, and wide enough for
      its lifelines, the boxes inside it, its dividers' texts and its title. */
  function CloseFrame(env: Env, y: real, f: SeqFrame, open: Open, parent: Option<Open>): SeqFrame
    requires env.Valid() && (forall c <- open.cols :: c < |env.xs|)
    requires parent.Some? ==> forall c <- parent.value.cols :: c < |env.xs|
  {
    var h := y - ROW_GAP / 2.0 + 6.0 - f.box.y;
    var spanned := FrameXs(env, open, parent);
    var x0 := BoxesLeft(open.boxes, Least(spanned) - FRAME_PAD);
    var x1 := BoxesRight(open.boxes, Greatest(spanned) + FRAME_PAD);
    var x2 := Max(DividersRight(f.dividers, x0, x1), x0 + TITLE_INSET + f.title.w + TITLE_INSET);
    f.(box := Rect(x0, f.box.y, x2 - x0, h),
       title := f.title.(x := x0 + TITLE_INSET),
       dividers := MapSeq((d: FrameDivider) => MoveDivider(d, x0 + TITLE_INSET), f.dividers))
  }

  /** The innermost open frame comes to hold more lifelines and boxes. */
  function Hold(stack: seq<Open>, cols: set<nat>, boxes: seq<Rect>): seq<Open> {
    if stack == [] then []
    else
      var top := stack[|stack| - 1];
      stack[..|stack| - 1] + [top.(cols := top.cols + cols, boxes := top.boxes + boxes)]
  }

  lemma HoldKnown(stack: seq<Open>, cols: set<nat>, boxes: seq<Rect>, frames: nat, n: nat)
    requires forall i :: 0 <= i < |stack| ==> stack[i].f < frames
    requires forall i :: 0 <= i < |stack| ==> forall c <- stack[i].cols :: c < n
    requires forall c <- cols :: c < n
    ensures forall i :: 0 <= i < |stack| ==> Hold(stack, cols, boxes)[i].f < frames
    ensures forall i :: 0 <= i < |stack| ==> forall c <- Hold(stack, cols, boxes)[i].cols :: c < n
    ensures |Hold(stack, cols, boxes)| == |stack|
  {
  }

  function MessageBoxes(env: Env, m: SeqMessage, i: nat): seq<Rect>
    requires i < |env.xs|
  {
    (if m.caption.Some? then [m.caption.value.box] else [])
    + (if m.self then [Rect(env.xs[i], 0.0, SELF_W, 0.0)] else [])
  }

  /** A message and its text, below what came before and held by the open frame. */
  function PutMessage(env: Env, s: State, r: Row): (s': State)
    requires env.Valid() && s.Valid(env) && r.Message? && KnownRow(env.actors, r)
    ensures s'.Valid(env)
  {
    var i, j := Col(env.actors, r.from), Col(env.actors, r.to);
    var m := PlaceMessage(env, s.y, r, s.stack != []);
    HoldKnown(s.stack, {i, j}, MessageBoxes(env, m, i), |s.frames|, |env.xs|);
    s.(y := BelowMessage(env, s.y, r), messages := s.messages + [m],
       stack := Hold(s.stack, {i, j}, MessageBoxes(env, m, i)))
  }

  function PutNote(env: Env, s: State, r: Row): (s': State)
    requires env.Valid() && s.Valid(env) && r.Note? && KnownRow(env.actors, r)
    ensures s'.Valid(env)
  {
    var note := PlaceNote(env, s.y, r);
    HoldKnown(s.stack, {Col(env.actors, r.from), Col(env.actors, r.to)}, [note.box], |s.frames|, |env.xs|);
    s.(y := s.y + note.box.h + ROW_GAP, notes := s.notes + [note],
       stack := Hold(s.stack, {Col(env.actors, r.from), Col(env.actors, r.to)}, [note.box]))
  }

  function PutFrame(env: Env, s: State, r: Row): (s': State)
    requires env.Valid() && s.Valid(env) && r.Frame?
    ensures s'.Valid(env)
  {
    var f := OpenFrame(env.fonts, s.y, r);
    s.(y := s.y + 2.0 * TITLE_PAD + f.title.h, frames := s.frames + [f],
       stack := s.stack + [Open(|s.frames|, {}, [], f.title.y + f.title.h + DIVIDER_GAP)])
  }

  /** A divider put into the innermost open frame. */
  function Divide(env: Env, s: State, r: Row): (s': State)
    requires env.Valid() && s.Valid(env) && r.Divider? && s.stack != []
    ensures s'.Valid(env)
  {
    var open := s.stack[|s.stack| - 1];
    var d := PlaceDivider(env.fonts, DividerY(s.y, open.floor), r);
    var f := s.frames[open.f];
    s.(y := DividerFoot(d) + 12.0,
       frames := s.frames[open.f := f.(dividers := f.dividers + [d])],
       stack := s.stack[..|s.stack| - 1] + [open.(floor := DividerFoot(d) + DIVIDER_GAP)])
  }

  /** The innermost open frame closed around what it holds. */
  function Close(env: Env, s: State): (s': State)
    requires env.Valid() && s.Valid(env) && s.stack != []
    ensures s'.Valid(env)
  {
    var open := s.stack[|s.stack| - 1];
    var rest := s.stack[..|s.stack| - 1];
    var f := CloseFrame(env, s.y, s.frames[open.f], open, if rest == [] then None else Some(rest[|rest| - 1]));
    HoldKnown(rest, open.cols, [f.box], |s.frames|, |env.xs|);
    s.(y := f.box.y + f.box.h + ROW_GAP, frames := s.frames[open.f := f],
       stack := Hold(rest, open.cols, [f.box]))
  }

  /** What one row adds below the rows already placed. */
  function PlaceRow(env: Env, s: State, r: Row): (s': State)
    requires env.Valid() && s.Valid(env) && KnownRow(env.actors, r)
    ensures s'.Valid(env)
  {
    match r
    case Message(_, _, _, _, _) => PutMessage(env, s, r)
    case Note(_, _, _, _) => PutNote(env, s, r)
    case Frame(_, _) => PutFrame(env, s, r)
    case Divider(_, _) => if s.stack == [] then s else Divide(env, s, r)
    case End => if s.stack == [] then s else Close(env, s)
  }

  function PlaceRows(env: Env, y: real, rows: seq<Row>): (s: State)
    requires env.Valid() && KnownEnds(env.actors, rows)
    ensures s.Valid(env)
  {
    if rows == [] then State(y, [], [], [], [])
    else PlaceRow(env, PlaceRows(env, y, rows[..|rows| - 1]), rows[|rows| - 1])
  }

  // ---- the canvas ----

  function PlateBox(p: Plate, x: real, h: real): Rect {
    Rect(x - p.w / 2.0, MARGIN, p.w, h)
  }

  function PlaceActors(fonts: Fonts, actors: seq<Actor>, xs: seq<real>): (r: seq<SeqActor>)
    requires |xs| == |actors|
    ensures |r| == |actors|
  {
    var plates := Plates(fonts, actors);
    var h := HeadHeight(plates);
    seq(|actors|, i requires 0 <= i < |actors| =>
      SeqActor(actors[i].id, plates[i].lines, plates[i].face, plates[i].size, plates[i].bold,
               PlateBox(plates[i], xs[i], h)))
  }

  function PlaceLifelines(actors: seq<Actor>, xs: seq<real>, y1: real, y2: real): (r: seq<SeqLifeline>)
    requires |xs| == |actors|
    ensures |r| == |actors|
  {
    seq(|actors|, i requires 0 <= i < |actors| => SeqLifeline(actors[i].id, xs[i], y1, y2))
  }

  /** The boxes the canvas has to hold that a message draws. */
  function MessageExtent(m: SeqMessage): seq<Rect> {
    (if m.caption.Some? then [m.caption.value.box] else [])
    + (if m.self && |m.points| > 1 then [Rect(m.points[1].x, 0.0, 0.0, 0.0)] else [])
  }

  function MessageExtents(messages: seq<SeqMessage>): (r: seq<Rect>)
    ensures forall m <- messages :: m.caption.Some? ==> m.caption.value.box in r
  {
    if messages == [] then []
    else MessageExtents(messages[..|messages| - 1]) + MessageExtent(messages[|messages| - 1])
  }

  function Extents(actors: seq<SeqActor>, s: State): (boxes: seq<Rect>)
    ensures actors != [] ==> boxes != []
  {
    MapSeq((a: SeqActor) => a.box, actors)
    + MapSeq((n: SeqNote) => n.box, s.notes)
    + MapSeq((f: SeqFrame) => f.box, s.frames)
    + MapSeq((f: SeqFrame) => f.title, s.frames)
    + MessageExtents(s.messages)
  }

  function MoveRect(r: Rect, dx: real): Rect {
    r.(x := r.x + dx)
  }

  function MoveText(t: Option<TextBlock>, dx: real): Option<TextBlock> {
    if t.Some? then Some(t.value.(box := MoveRect(t.value.box, dx))) else None
  }

  function MoveActor(a: SeqActor, dx: real): SeqActor {
    a.(box := MoveRect(a.box, dx))
  }

  function MoveLifeline(l: SeqLifeline, dx: real): SeqLifeline {
    l.(x := l.x + dx)
  }

  function MoveMessage(m: SeqMessage, dx: real): SeqMessage {
    m.(points := MapSeq((p: Point) => Point(p.x + dx, p.y), m.points), caption := MoveText(m.caption, dx))
  }

  function MoveNote(n: SeqNote, dx: real): SeqNote {
    n.(box := MoveRect(n.box, dx))
  }

  function MoveFrame(f: SeqFrame, dx: real): SeqFrame {
    f.(box := MoveRect(f.box, dx), title := MoveRect(f.title, dx),
       dividers := MapSeq((d: FrameDivider) => d.(caption := MoveText(d.caption, dx)), f.dividers))
  }

  function LeftEdge(boxes: seq<Rect>): real
    requires boxes != []
  {
    Least(MapSeq((b: Rect) => b.x, boxes))
  }

  function RightEdge(boxes: seq<Rect>): real
    requires boxes != []
  {
    Greatest(MapSeq((b: Rect) => b.x + b.w, boxes))
  }

  /** Everything moved so that the leftmost box stands a margin in, on a canvas
      the size of what was drawn. */
  function Framed(actors: seq<SeqActor>, lifelines: seq<SeqLifeline>, s: State, bottom: real): SequenceLayout
    requires actors != []
  {
    var boxes := Extents(actors, s);
    var dx := MARGIN - LeftEdge(boxes);
    SequenceLayout(Up(RightEdge(boxes) + dx + MARGIN), Up(bottom + MARGIN),
                   MapSeq((a: SeqActor) => MoveActor(a, dx), actors),
                   MapSeq((l: SeqLifeline) => MoveLifeline(l, dx), lifelines),
                   MapSeq((m: SeqMessage) => MoveMessage(m, dx), s.messages),
                   MapSeq((n: SeqNote) => MoveNote(n, dx), s.notes),
                   MapSeq((f: SeqFrame) => MoveFrame(f, dx), s.frames))
  }

  function TopOf(env: Env): (top: real)
    ensures top >= MARGIN
  {
    MARGIN + HeadHeight(Plates(env.fonts, env.actors))
  }

  function BottomOf(s: State): real {
    s.y - ROW_GAP + 16.0
  }

  /** Rows placed between lifelines that stand already. */
  function LayoutBetween(env: Env, rows: seq<Row>): SequenceLayout
    requires env.Valid() && KnownEnds(env.actors, rows)
  {
    var top := TopOf(env);
    var s := PlaceRows(env, top + 24.0, rows);
    Framed(PlaceActors(env.fonts, env.actors, env.xs), PlaceLifelines(env.actors, env.xs, top, BottomOf(s)), s,
           BottomOf(s))
  }

  function EnvOf(fonts: Fonts, ir: SequenceIR): (env: Env)
    requires ir.actors != [] && KnownEnds(ir.actors, ir.rows)
    ensures env.Valid() && env.actors == ir.actors && env.fonts == fonts
  {
    Env(fonts, ir.actors, Lifelines(fonts, ir))
  }

  function Layout(fonts: Fonts, ir: SequenceIR): SequenceLayout
    requires ir.actors != [] && KnownEnds(ir.actors, ir.rows)
  {
    LayoutBetween(EnvOf(fonts, ir), ir.rows)
  }
}
