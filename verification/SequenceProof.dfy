// A sequence layout draws every row, in order, and nothing is wrong with it.
module SequenceProof {
  import opened Geometry
  import opened DiagramTheme
  import opened SequenceIR
  import opened SequenceColumns
  import opened SequenceLayout
  import opened SequenceCheck
  import opened SequenceRows
  import opened SequenceFrames

  // ---- the lifelines give every row the room it needs ----

  predicate Ascending(xs: seq<real>) {
    forall i, j :: 0 <= i <= j < |xs| ==> xs[i] <= xs[j]
  }

  predicate Met(xs: seq<real>, c: Constraint) {
    c.a < c.b < |xs| && xs[c.b] - xs[c.a] >= c.need
  }

  /** A row's constraints are met. */
  predicate HasRoom(env: Env, r: Row)
    requires KnownRow(env.actors, r)
  {
    forall c <- RowCons(env.fonts, env.actors, r) :: Met(env.xs, c)
  }

  /** Lifelines left to right, told apart by id. */
  predicate LeftToRight(env: Env) {
    env.Valid() && Ascending(env.xs) && Distinct(env.actors)
  }

  lemma {:induction false} RowConsAmongAll(fonts: Fonts, actors: seq<Actor>, rows: seq<Row>, r: Row, c: Constraint)
    requires KnownEnds(actors, rows) && r in rows && c in RowCons(fonts, actors, r)
    ensures c in AllRowCons(fonts, actors, rows)
  {
    var init, last := rows[..|rows| - 1], rows[|rows| - 1];
    if r in init {
      RowConsAmongAll(fonts, actors, init, r, c);
    } else {
      assert r == last;
    }
  }

  lemma ColumnsMetAll(n: nat, cons: seq<Constraint>)
    requires n >= 1 && Spans(n, cons)
    ensures Ascending(ColumnsOf(n, cons)) && forall c <- cons :: Met(ColumnsOf(n, cons), c)
  {
    ColumnsMeet(n, cons);
    forall i, j | 0 <= i <= j < n ensures ColumnsOf(n, cons)[i] <= ColumnsOf(n, cons)[j] {
      ColumnsAscend(n, cons, i, j);
    }
  }

  lemma RowsRoomy(env: Env, rows: seq<Row>)
    requires env.Valid() && KnownEnds(env.actors, rows)
    requires forall c <- AllRowCons(env.fonts, env.actors, rows) :: Met(env.xs, c)
    ensures forall r <- rows :: KnownRow(env.actors, r) && HasRoom(env, r)
  {
    forall r | r in rows ensures KnownRow(env.actors, r) && HasRoom(env, r) {
      forall c | c in RowCons(env.fonts, env.actors, r) ensures Met(env.xs, c) {
        RowConsAmongAll(env.fonts, env.actors, rows, r, c);
      }
    }
  }

  /** The lifelines stand in order, with room for every row and box. */
  lemma LifelinesRoomy(fonts: Fonts, ir: SequenceIR)
    requires WellFormed(ir)
    ensures LeftToRight(EnvOf(fonts, ir))
    ensures forall r <- ir.rows :: KnownRow(ir.actors, r) && HasRoom(EnvOf(fonts, ir), r)
    ensures forall c <- NeighbourCons(Plates(fonts, ir.actors), |ir.actors| - 1) :: Met(Lifelines(fonts, ir), c)
  {
    var plates := Plates(fonts, ir.actors);
    var near, far := NeighbourCons(plates, |plates| - 1), AllRowCons(fonts, ir.actors, ir.rows);
    var xs := ColumnsOf(|plates|, near + far);
    ColumnsMetAll(|plates|, near + far);
    assert Lifelines(fonts, ir) == xs;
    forall c | c in far ensures Met(xs, c) {
      assert c in near + far;
    }
    RowsRoomy(EnvOf(fonts, ir), ir.rows);
  }

  /** Participants' boxes stand at least colGap apart. */
  lemma {:induction false} ActorsApart(plates: seq<Plate>, xs: seq<real>, h: real, i: nat, j: nat)
    requires i < j < |plates| == |xs| && (forall k :: 0 <= k < |plates| ==> plates[k].w >= BOX_MIN)
    requires forall c <- NeighbourCons(plates, |plates| - 1) :: Met(xs, c)
    ensures var a, b := PlateBox(plates[i], xs[i], h), PlateBox(plates[j], xs[j], h);
            a.x + a.w + COL_GAP <= b.x
    decreases j - i
  {
    var c := Constraint(i, i + 1, plates[i].w / 2.0 + plates[i + 1].w / 2.0 + COL_GAP);
    assert c in NeighbourCons(plates, |plates| - 1) && Met(xs, c);
    if i + 1 < j {
      ActorsApart(plates, xs, h, i + 1, j);
    }
  }

  // ---- one message, one note ----

  predicate LifelinesOf(env: Env, lifelines: seq<SeqLifeline>)
    requires env.Valid()
  {
    |lifelines| == |env.actors|
    && forall k :: 0 <= k < |lifelines| ==> lifelines[k].id == env.actors[k].id && lifelines[k].x == env.xs[k]
  }

  /** A box between a lifeline's neighbours crosses no other lifeline. */
  lemma ClearBeside(env: Env, r: Rect, id: string, lifelines: seq<SeqLifeline>)
    requires LeftToRight(env) && id in Ids(env.actors) && LifelinesOf(env, lifelines)
    requires var i := Col(env.actors, id);
             (i > 0 ==> env.xs[i - 1] <= r.x) && (i + 1 < |env.xs| ==> r.x + r.w <= env.xs[i + 1])
    ensures ClearOfLifelines(r, id, lifelines)
  {
  }

  /** A text at least textPad inside its arrow's ends. */
  predicate BetweenEnds(r: Rect, x0: real, x1: real) {
    Min(x0, x1) + TEXT_PAD <= r.x && r.x + r.w + TEXT_PAD <= Max(x0, x1)
  }

  /** The arrow a row asks for, its ends on their lifelines, square at its bends. */
  predicate Joins(env: Env, m: SeqMessage, r: Row)
    requires env.Valid() && r.Message? && KnownRow(env.actors, r)
  {
    && m.from == r.from && m.to == r.to && m.dashed == (r.line == Dashed) && m.head == r.head
    && m.self == (r.from == r.to)
    && |m.points| == (if m.self then 4 else 2)
    && m.points[0].x == env.xs[Col(env.actors, r.from)] && m.points[|m.points| - 1].x == env.xs[Col(env.actors, r.to)]
    && (forall k :: 1 <= k < |m.points| ==> m.points[k - 1].x == m.points[k].x || m.points[k - 1].y == m.points[k].y)
  }

  /** The message's text as written, wrapped, inside its arrow. */
  predicate Says(env: Env, m: SeqMessage, text: string) {
    && (m.caption.Some? <==> text != "")
    && (m.caption.Some? ==>
          var t := m.caption.value;
          && t.lines == Wrapped(env.fonts.adv, text, TEXT_MAX, t.size, t.face)
          && (!m.self && |m.points| == 2 ==> BetweenEnds(t.box, m.points[0].x, m.points[1].x)))
  }

  /** The message a row asks for, its text clear of its own line and of other
      lifelines. */
  predicate Draws(env: Env, lifelines: seq<SeqLifeline>, m: SeqMessage, r: Row)
    requires env.Valid() && r.Message? && KnownRow(env.actors, r)
  {
    Joins(env, m, r) && Says(env, m, r.text) && MessageReads(m, lifelines)
  }

  lemma LoopDraws(env: Env, lifelines: seq<SeqLifeline>, y: real, r: Row, framed: bool)
    requires LeftToRight(env) && r.Message? && KnownRow(env.actors, r) && HasRoom(env, r) && LifelinesOf(env, lifelines)
    requires Col(env.actors, r.from) == Col(env.actors, r.to)
    ensures Draws(env, lifelines, PlaceMessage(env, y, r, framed), r)
  {
    var m := PlaceMessage(env, y, r, framed);
    var t := RowBlock(env.fonts, r);
    var i := Col(env.actors, r.from);
    if t.Some? {
      var box := m.caption.value.box;
      forall k | 1 <= k < |m.points| ensures Clear(box, m.points[k - 1], m.points[k], MIN_LABEL_GAP) {
        ClearByGap(box, m.points[k - 1], m.points[k], MIN_LABEL_GAP);
      }
      if i + 1 < |env.actors| {
        assert Met(env.xs, Constraint(i, i + 1, SELF_W + SELF_GAP + WidthOf(t) + TEXT_PAD));
      }
      ClearBeside(env, box, r.from, lifelines);
    }
  }

  lemma ArrowDraws(env: Env, lifelines: seq<SeqLifeline>, y: real, r: Row, framed: bool)
    requires LeftToRight(env) && r.Message? && KnownRow(env.actors, r) && HasRoom(env, r)
    requires Col(env.actors, r.from) != Col(env.actors, r.to)
    ensures Draws(env, lifelines, PlaceMessage(env, y, r, framed), r)
  {
    var m := PlaceMessage(env, y, r, framed);
    var t := RowBlock(env.fonts, r);
    var i, j := Col(env.actors, r.from), Col(env.actors, r.to);
    if t.Some? {
      var box := m.caption.value.box;
      ClearByGap(box, m.points[0], m.points[1], MIN_LABEL_GAP);
      assert Met(env.xs, Constraint(if i < j then i else j, if i < j then j else i, WidthOf(t) + 2.0 * TEXT_PAD));
    }
  }

  lemma MessageDraws(env: Env, lifelines: seq<SeqLifeline>, y: real, r: Row, framed: bool)
    requires LeftToRight(env) && r.Message? && KnownRow(env.actors, r) && HasRoom(env, r) && LifelinesOf(env, lifelines)
    ensures Draws(env, lifelines, PlaceMessage(env, y, r, framed), r)
  {
    if Col(env.actors, r.from) == Col(env.actors, r.to) {
      LoopDraws(env, lifelines, y, r, framed);
    } else {
      ArrowDraws(env, lifelines, y, r, framed);
    }
  }

  /** The note a row asks for: its text as written and wrapped, beside or over
      its lifelines, inside its box and off every other lifeline. */
  predicate NoteDraws(env: Env, lifelines: seq<SeqLifeline>, n: SeqNote, r: Row)
    requires env.Valid() && r.Note? && KnownRow(env.actors, r)
  {
    var xi, xj := env.xs[Col(env.actors, r.from)], env.xs[Col(env.actors, r.to)];
    && n.lines == Wrapped(env.fonts.adv, r.text, NOTE_MAX, RAMP_TEXT, Sans)
    && n.beside == (if r.side == Over then None else Some(r.from))
    && (r.side == LeftOf ==> n.box.x + n.box.w + NOTE_GAP == xi)
    && (r.side == RightOf ==> n.box.x == xi + NOTE_GAP)
    && (r.side == Over ==> n.box.x <= Min(xi, xj) && Max(xi, xj) <= n.box.x + n.box.w)
    && NoteFits(env.fonts.adv, n) && NoteReads(n, lifelines)
  }

  lemma NotePlacedFits(env: Env, y: real, r: Row)
    requires env.Valid() && r.Note? && KnownRow(env.actors, r)
    ensures NoteFits(env.fonts.adv, PlaceNote(env, y, r))
  {
    var n := PlaceNote(env, y, r);
    var t := RowBlock(env.fonts, r).value;
    forall k | 0 <= k < |n.lines|
      ensures TextWidth(env.fonts.adv, n.lines[k], RAMP_TEXT, Sans) <= n.box.w - 2.0 * NOTE_PAD
    {
      assert n.lines[k] in t.lines;
    }
  }

  lemma NoteReadsRight(env: Env, lifelines: seq<SeqLifeline>, y: real, r: Row)
    requires LeftToRight(env) && r.Note? && KnownRow(env.actors, r) && HasRoom(env, r) && LifelinesOf(env, lifelines)
    requires r.side == RightOf
    ensures NoteReads(PlaceNote(env, y, r), lifelines)
  {
    hide LifelinesOf, ClearOfLifelines, Distinct;
    var t := RowBlock(env.fonts, r).value;
    var i := Col(env.actors, r.from);
    if i + 1 < |env.actors| {
      assert Met(env.xs, Constraint(i, i + 1, 2.0 * NOTE_GAP + NoteWidth(t)));
    }
    ClearBeside(env, PlaceNote(env, y, r).box, r.from, lifelines);
  }

  lemma NoteReadsLeft(env: Env, lifelines: seq<SeqLifeline>, y: real, r: Row)
    requires LeftToRight(env) && r.Note? && KnownRow(env.actors, r) && HasRoom(env, r) && LifelinesOf(env, lifelines)
    requires r.side == LeftOf
    ensures NoteReads(PlaceNote(env, y, r), lifelines)
  {
    hide LifelinesOf, ClearOfLifelines, Distinct, Measured;
    var t := RowBlock(env.fonts, r).value;
    var i := Col(env.actors, r.from);
    if i > 0 {
      assert Met(env.xs, Constraint(i - 1, i, 2.0 * NOTE_GAP + NoteWidth(t)));
    }
    ClearBeside(env, PlaceNote(env, y, r).box, r.from, lifelines);
  }

  lemma NotePlacedDraws(env: Env, lifelines: seq<SeqLifeline>, y: real, r: Row)
    requires LeftToRight(env) && r.Note? && KnownRow(env.actors, r) && HasRoom(env, r) && LifelinesOf(env, lifelines)
    ensures NoteDraws(env, lifelines, PlaceNote(env, y, r), r)
  {
    NotePlacedFits(env, y, r);
    match r.side {
      case Over =>
      case RightOf => NoteReadsRight(env, lifelines, y, r);
      case LeftOf => NoteReadsLeft(env, lifelines, y, r);
    }
  }

  // ---- every row drawn ----

  function MessageRows(rows: seq<Row>): (r: seq<Row>)
    ensures forall m <- r :: m.Message? && m in rows
  {
    if rows == [] then []
    else
      var last := rows[|rows| - 1];
      MessageRows(rows[..|rows| - 1]) + if last.Message? then [last] else []
  }

  function NoteRows(rows: seq<Row>): (r: seq<Row>)
    ensures forall n <- r :: n.Note? && n in rows
  {
    if rows == [] then []
    else
      var last := rows[|rows| - 1];
      NoteRows(rows[..|rows| - 1]) + if last.Note? then [last] else []
  }

  function FrameRows(rows: seq<Row>): (r: seq<Row>)
    ensures forall f <- r :: f.Frame? && f in rows
  {
    if rows == [] then []
    else
      var last := rows[|rows| - 1];
      FrameRows(rows[..|rows| - 1]) + if last.Frame? then [last] else []
  }

  function LastY(m: SeqMessage): real {
    if m.points == [] then 0.0 else m.points[|m.points| - 1].y
  }

  function FirstY(m: SeqMessage): real {
    if m.points == [] then 0.0 else m.points[0].y
  }

  /** Every message row drawn, one under another, above y. */
  predicate MessagesDrawn(env: Env, lifelines: seq<SeqLifeline>, messages: seq<SeqMessage>, rows: seq<Row>, y: real)
    requires env.Valid() && KnownEnds(env.actors, rows)
  {
    && |messages| == |MessageRows(rows)|
    && (forall k :: 0 <= k < |messages| ==>
          var r := MessageRows(rows)[k];
          KnownRow(env.actors, r) && Draws(env, lifelines, messages[k], r) && LastY(messages[k]) + ROW_GAP <= y)
    && (forall i, j :: 0 <= i < j < |messages| ==> LastY(messages[i]) + ROW_GAP <= FirstY(messages[j]))
  }

  predicate NotesDrawn(env: Env, lifelines: seq<SeqLifeline>, notes: seq<SeqNote>, rows: seq<Row>)
    requires env.Valid() && KnownEnds(env.actors, rows)
  {
    && |notes| == |NoteRows(rows)|
    && (forall k :: 0 <= k < |notes| ==>
          var r := NoteRows(rows)[k]; KnownRow(env.actors, r) && NoteDraws(env, lifelines, notes[k], r))
  }

  predicate FramesTitled(adv: Advance, frames: seq<SeqFrame>, rows: seq<Row>) {
    && |frames| == |FrameRows(rows)|
    && (forall k :: 0 <= k < |frames| ==> Titles(adv, frames[k], FrameRows(rows)[k]))
  }

  /** Every row drawn so far, with the frames still open on the stack. */
  predicate RowsDrawn(env: Env, lifelines: seq<SeqLifeline>, s: State, rows: seq<Row>)
    requires env.Valid() && KnownEnds(env.actors, rows)
  {
    && MessagesDrawn(env, lifelines, s.messages, rows, s.y)
    && NotesDrawn(env, lifelines, s.notes, rows)
    && FramesTitled(env.fonts.adv, s.frames, rows)
    && Nesting(rows) == Some(|s.stack|)
  }

  /** The frame a row opens: its keyword, and its condition wrapped, in a title
      wide enough for both. */
  predicate Titles(adv: Advance, f: SeqFrame, r: Row)
    requires r.Frame?
  {
    && f.keyword == r.keyword
    && f.cond == (if r.text == "" then [] else Wrapped(adv, r.text, COND_MAX, RAMP_LABEL, Mono))
    && (forall line <- f.cond :: TextWidth(adv, r.keyword, RAMP_LABEL, Mono)
                                 + TextWidth(adv, line, RAMP_LABEL, Mono) <= f.title.w)
  }

  /** The invariant over rows. */
  predicate Good(env: Env, lifelines: seq<SeqLifeline>, s: State, rows: seq<Row>, top: real)
    requires env.Valid() && KnownEnds(env.actors, rows)
  {
    TextsOk(s, top) && FramesOk(s) && RowsDrawn(env, lifelines, s, rows)
  }

  lemma MessageRowDrawn(env: Env, lifelines: seq<SeqLifeline>, rows: seq<Row>, r: Row, messages: seq<SeqMessage>,
                        y: real, framed: bool)
    requires LeftToRight(env) && LifelinesOf(env, lifelines) && r.Message?
    requires KnownEnds(env.actors, rows) && KnownRow(env.actors, r) && HasRoom(env, r)
             && KnownEnds(env.actors, rows + [r])
    requires MessagesDrawn(env, lifelines, messages, rows, y)
    ensures MessagesDrawn(env, lifelines, messages + [PlaceMessage(env, y, r, framed)], rows + [r],
                          BelowMessage(env, y, r))
  {
    assert (rows + [r])[..|rows|] == rows;
    var m := PlaceMessage(env, y, r, framed);
    MessageDraws(env, lifelines, y, r, framed);
    assert FirstY(m) >= y && LastY(m) + ROW_GAP == BelowMessage(env, y, r) && y <= BelowMessage(env, y, r);
    assert MessageRows(rows + [r]) == MessageRows(rows) + [r];
  }

  lemma MessagesStay(env: Env, lifelines: seq<SeqLifeline>, rows: seq<Row>, r: Row, messages: seq<SeqMessage>, y: real,
                     y': real)
    requires env.Valid() && !r.Message? && y <= y' && KnownEnds(env.actors, rows) && KnownEnds(env.actors, rows + [r])
    requires MessagesDrawn(env, lifelines, messages, rows, y)
    ensures MessagesDrawn(env, lifelines, messages, rows + [r], y')
  {
    assert (rows + [r])[..|rows|] == rows;
  }

  lemma TitlesStay(adv: Advance, rows: seq<Row>, r: Row, frames: seq<SeqFrame>, frames': seq<SeqFrame>)
    requires !r.Frame? && FramesTitled(adv, frames, rows) && |frames'| == |frames|
    requires forall k :: 0 <= k < |frames| ==>
               && frames'[k].keyword == frames[k].keyword && frames'[k].cond == frames[k].cond
                                               && frames'[k].title.w == frames[k].title.w
    ensures FramesTitled(adv, frames', rows + [r])
  {
    assert (rows + [r])[..|rows|] == rows;
    forall k | 0 <= k < |frames'| ensures Titles(adv, frames'[k], FrameRows(rows + [r])[k]) {
      assert Titles(adv, frames[k], FrameRows(rows)[k]);
    }
  }

  lemma FrameRowTitled(adv: Advance, fonts: Fonts, rows: seq<Row>, r: Row, frames: seq<SeqFrame>, y: real)
    requires r.Frame? && fonts.adv == adv && FramesTitled(adv, frames, rows)
    ensures FramesTitled(adv, frames + [OpenFrame(fonts, y, r)], rows + [r])
  {
    assert (rows + [r])[..|rows|] == rows;
    assert FrameRows(rows + [r]) == FrameRows(rows) + [r];
    assert Titles(adv, OpenFrame(fonts, y, r), r);
  }

  /** A divider or an end draws no message, no note and no title. */
  lemma DividerOrEndShape(env: Env, s: State, r: Row)
    requires env.Valid() && s.Valid(env) && (r.Divider? || r.End?)
    ensures var s' := PlaceRow(env, s, r);
            && s'.messages == s.messages && s'.notes == s.notes && |s'.frames| == |s.frames|
            && (forall k :: 0 <= k < |s.frames| ==> && s'.frames[k].keyword == s.frames[k].keyword
                                                    && s'.frames[k].cond == s.frames[k].cond
                                                    && s'.frames[k].title.w == s.frames[k].title.w)
            && |s'.stack| == (if s.stack == [] || r.Divider? then |s.stack| else |s.stack| - 1)
  {
  }

  lemma FrameRowDrawn(env: Env, lifelines: seq<SeqLifeline>, rows: seq<Row>, r: Row, s: State)
    requires LeftToRight(env) && LifelinesOf(env, lifelines) && s.Valid(env) && r.Frame?
    requires KnownEnds(env.actors, rows) && KnownEnds(env.actors, rows + [r]) && RowsDrawn(env, lifelines, s, rows)
    ensures RowsDrawn(env, lifelines, PlaceRow(env, s, r), rows + [r])
  {
    assert (rows + [r])[..|rows|] == rows;
    RowTextBand(env, s, r);
    MessagesStay(env, lifelines, rows, r, s.messages, s.y, PlaceRow(env, s, r).y);
    FrameRowTitled(env.fonts.adv, env.fonts, rows, r, s.frames, s.y);
  }

  lemma DividerOrEndDrawn(env: Env, lifelines: seq<SeqLifeline>, rows: seq<Row>, r: Row, s: State, s': State)
    requires LeftToRight(env) && LifelinesOf(env, lifelines) && (r.Divider? || r.End?)
    requires KnownEnds(env.actors, rows) && KnownEnds(env.actors, rows + [r])
    requires RowsDrawn(env, lifelines, s, rows) && Nesting(rows + [r]).Some?
    requires s.y <= s'.y && s'.messages == s.messages && s'.notes == s.notes && |s'.frames| == |s.frames|
    requires forall k :: 0 <= k < |s.frames| ==> && s'.frames[k].keyword == s.frames[k].keyword
                                                 && s'.frames[k].cond == s.frames[k].cond
                                                 && s'.frames[k].title.w == s.frames[k].title.w
    requires |s'.stack| == (if s.stack == [] || r.Divider? then |s.stack| else |s.stack| - 1)
    ensures RowsDrawn(env, lifelines, s', rows + [r])
  {
    assert (rows + [r])[..|rows|] == rows;
    MessagesStay(env, lifelines, rows, r, s.messages, s.y, s'.y);
    TitlesStay(env.fonts.adv, rows, r, s.frames, s'.frames);
  }

  lemma MessageOrNoteDrawn(env: Env, lifelines: seq<SeqLifeline>, rows: seq<Row>, r: Row, s: State)
    requires LeftToRight(env) && LifelinesOf(env, lifelines) && s.Valid(env) && (r.Message? || r.Note?)
    requires KnownEnds(env.actors, rows) && KnownRow(env.actors, r) && HasRoom(env, r)
    requires RowsDrawn(env, lifelines, s, rows) && KnownEnds(env.actors, rows + [r])
    ensures RowsDrawn(env, lifelines, PlaceRow(env, s, r), rows + [r])
  {
    hide MessagesDrawn, FramesTitled, LifelinesOf, PlaceMessage, PlaceNote, HasRoom, KnownEnds, KnownRow;
    assert (rows + [r])[..|rows|] == rows;
    TitlesStay(env.fonts.adv, rows, r, s.frames, s.frames);
    if r.Message? {
      MessageRowDrawn(env, lifelines, rows, r, s.messages, s.y, s.stack != []);
    } else {
      NotePlacedDraws(env, lifelines, s.y, r);
      RowTextBand(env, s, r);
      hide NoteDraws;
      MessagesStay(env, lifelines, rows, r, s.messages, s.y, PlaceRow(env, s, r).y);
    }
  }

  lemma RowDrawn(env: Env, lifelines: seq<SeqLifeline>, rows: seq<Row>, r: Row, s: State)
    requires LeftToRight(env) && LifelinesOf(env, lifelines) && s.Valid(env)
    requires KnownEnds(env.actors, rows) && KnownRow(env.actors, r) && HasRoom(env, r)
    requires RowsDrawn(env, lifelines, s, rows) && KnownEnds(env.actors, rows + [r]) && Nesting(rows + [r]).Some?
    ensures RowsDrawn(env, lifelines, PlaceRow(env, s, r), rows + [r])
  {
    hide RowsDrawn, PlaceRow, HasRoom, KnownEnds;
    if r.Message? {
      MessageOrNoteDrawn(env, lifelines, rows, r, s);
    } else if r.Note? {
      MessageOrNoteDrawn(env, lifelines, rows, r, s);
    } else if r.Frame? {
      FrameRowDrawn(env, lifelines, rows, r, s);
    } else {
      RowTextBand(env, s, r);
      DividerOrEndShape(env, s, r);
      DividerOrEndDrawn(env, lifelines, rows, r, s, PlaceRow(env, s, r));
    }
  }

  lemma {:induction false} RowsGood(env: Env, lifelines: seq<SeqLifeline>, rows: seq<Row>, top: real)
    requires LeftToRight(env) && LifelinesOf(env, lifelines)
    requires KnownEnds(env.actors, rows) && Nesting(rows).Some?
    requires forall r <- rows :: KnownRow(env.actors, r) && HasRoom(env, r)
    ensures Good(env, lifelines, PlaceRows(env, top + 24.0, rows), rows, top)
  {
    hide PlaceRow, Good, LifelinesOf, Ascending, Distinct, HasRoom, Nesting;
    if rows == [] {
      NoRowsGood(env, lifelines, top);
    } else {
      var init, last := rows[..|rows| - 1], rows[|rows| - 1];
      assert rows == init + [last];
      assert last in rows;
      assert Nesting(init).Some? by { NestingBefore(rows); }
      RowsGood(env, lifelines, init, top);
      RowGood(env, lifelines, init, last, PlaceRows(env, top + 24.0, init), top);
    }
  }

  lemma NestingBefore(rows: seq<Row>)
    requires rows != [] && Nesting(rows).Some?
    ensures Nesting(rows[..|rows| - 1]).Some?
  {
  }

  lemma NoRowsGood(env: Env, lifelines: seq<SeqLifeline>, top: real)
    requires LeftToRight(env) && LifelinesOf(env, lifelines)
    ensures Good(env, lifelines, PlaceRows(env, top + 24.0, []), [], top)
  {
    hide TextsOk, FramesOk, RowsDrawn, Ascending, Distinct;
    NoFramesOk(top + 24.0);
    NoTextsOk(top);
    NoRowsDrawn(env, lifelines, top + 24.0);
  }

  lemma NoTextsOk(top: real)
    ensures TextsOk(State(top + 24.0, [], [], [], []), top)
  {
  }

  lemma NoRowsDrawn(env: Env, lifelines: seq<SeqLifeline>, y: real)
    requires env.Valid() && LifelinesOf(env, lifelines)
    ensures RowsDrawn(env, lifelines, State(y, [], [], [], []), [])
  {
  }

  lemma RowGood(env: Env, lifelines: seq<SeqLifeline>, init: seq<Row>, last: Row, s: State, top: real)
    requires LeftToRight(env) && LifelinesOf(env, lifelines) && s.Valid(env)
    requires KnownEnds(env.actors, init) && KnownEnds(env.actors, init + [last]) && Nesting(init + [last]).Some?
    requires KnownRow(env.actors, last) && HasRoom(env, last) && Good(env, lifelines, s, init, top)
    ensures Good(env, lifelines, PlaceRow(env, s, last), init + [last], top)
  {
    hide PlaceRow, RowsDrawn, TextsOk, FramesOk, LifelinesOf, Ascending, Distinct, HasRoom, Nesting;
    TextsKept(env, s, last, top);
    FramesKept(env, s, last);
    RowDrawn(env, lifelines, init, last, s);
  }
}
