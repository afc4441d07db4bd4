// How a sequence diagram's rows stand one under another: where each starts, given the one
// before, from the heads down to the foot of the lifelines (layoutSequence,
// ui/src/diagramSequence.ts).
module SequenceStack {
  import opened Geometry
  import opened SequenceIR
  import opened SequenceLayout
  import opened SequenceRows
  import opened SequenceFrames
  import opened SequenceProof
  import opened SequenceEnclosure
  import opened SequenceCanvas
  import opened SequenceTheorem
  import opened SequenceDividers
  import opened SequenceReads

  // ---- what later rows leave of a frame ----

  /** The same heights, closed or not: later rows only close it and add dividers. */
  predicate Lasts(f: SeqFrame, g: SeqFrame) {
    && g.box.y == f.box.y && g.title.y == f.title.y && g.title.h == f.title.h && (Shut(f) ==> g.box == f.box)
    && |f.dividers| <= |g.dividers|
    && forall e :: 0 <= e < |f.dividers| ==>
         g.dividers[e].y == f.dividers[e].y && DividerFoot(g.dividers[e]) == DividerFoot(f.dividers[e])
  }

  predicate AllLast(s: State, t: State) {
    |s.frames| <= |t.frames| && forall k :: 0 <= k < |s.frames| ==> Lasts(s.frames[k], t.frames[k])
  }

  lemma LastsOn(f: SeqFrame, g: SeqFrame, h: SeqFrame)
    requires Lasts(f, g) && Lasts(g, h)
    ensures Lasts(f, h)
  {
  }

  lemma AllLastOn(a: State, b: State, c: State)
    requires AllLast(a, b) && AllLast(b, c)
    ensures AllLast(a, c)
  {
    hide Lasts;
    forall k | 0 <= k < |a.frames| ensures Lasts(a.frames[k], c.frames[k]) {
      LastsOn(a.frames[k], b.frames[k], c.frames[k]);
    }
  }

  lemma RowLasts(env: Env, s: State, r: Row)
    requires env.Valid() && s.Valid(env) && KnownRow(env.actors, r) && StackOk(s)
    ensures AllLast(s, PlaceRow(env, s, r))
  {
    hide PlaceMessage, PlaceNote, Hold, BelowMessage, FrameXs, BoxesLeft, BoxesRight, DividersRight, PlaceDivider;
    if r.Divider? && s.stack != [] {
      assert !Shut(s.frames[s.stack[|s.stack| - 1].f]);
    } else if r.End? && s.stack != [] {
      assert !Shut(s.frames[s.stack[|s.stack| - 1].f]);
    }
  }

  lemma {:induction false} LaterLasts(env: Env, y: real, rows: seq<Row>, p: nat)
    requires env.Valid() && KnownEnds(env.actors, rows) && p <= |rows|
    ensures KnownEnds(env.actors, rows[..p]) && AllLast(PlaceRows(env, y, rows[..p]), PlaceRows(env, y, rows))
    ensures FramesOk(PlaceRows(env, y, rows))
  {
    hide PlaceRow, AllLast, FramesOk;
    if p == |rows| {
      assert rows[..p] == rows;
      LastsItself(PlaceRows(env, y, rows));
      RowsLater(env, y, rows, p);
    } else {
      var init, last := rows[..|rows| - 1], rows[|rows| - 1];
      assert last in rows;
      LaterLasts(env, y, init, p);
      assert init[..p] == rows[..p];
      assert StackOk(PlaceRows(env, y, init)) by { StackIsOk(PlaceRows(env, y, init)); }
      RowLasts(env, PlaceRows(env, y, init), last);
      AllLastOn(PlaceRows(env, y, rows[..p]), PlaceRows(env, y, init), PlaceRows(env, y, rows));
      RowsLater(env, y, rows, p);
    }
  }

  lemma StackIsOk(s: State)
    requires FramesOk(s)
    ensures StackOk(s)
  {
    hide HeldOk, PairOk, FloorsOk, FrameOk;
  }

  lemma LastsItself(s: State)
    ensures AllLast(s, s)
  {
  }

  // ---- where a divider may stand ----

  /** The floor under a frame's title, or under its last divider. */
  predicate FloorIs(f: SeqFrame, floor: real) {
    floor == 6.0 + if f.dividers == [] then Foot(f.title) else DividerFoot(f.dividers[|f.dividers| - 1])
  }

  predicate FloorsAre(s: State) {
    forall d :: 0 <= d < |s.stack| ==>
      s.stack[d].f < |s.frames| && FloorIs(s.frames[s.stack[d].f], s.stack[d].floor)
  }

  lemma RowFloors(env: Env, s: State, r: Row)
    requires env.Valid() && s.Valid(env) && KnownRow(env.actors, r) && StackOk(s) && FloorsAre(s)
    ensures FloorsAre(PlaceRow(env, s, r))
  {
    hide PlaceMessage, PlaceNote, BelowMessage, CloseFrame, PlaceDivider, OpenFrame, MessageBoxes, DividerFoot, Col;
    hide DividerY, Foot;
    if r.Frame? {
      OpenedFloor(env.fonts, s.y, r);
    }
  }

  lemma OpenedFloor(fonts: Fonts, y: real, r: Row)
    requires r.Frame?
    ensures var f := OpenFrame(fonts, y, r); FloorIs(f, f.title.y + f.title.h + DIVIDER_GAP)
    ensures var f := OpenFrame(fonts, y, r);
            f.box.y == y && f.dividers == [] && y + 2.0 * TITLE_PAD + f.title.h == Foot(f.title) + 8.0
  {
  }

  lemma {:induction false} RowsFloors(env: Env, y: real, rows: seq<Row>)
    requires env.Valid() && KnownEnds(env.actors, rows)
    ensures FloorsAre(PlaceRows(env, y, rows))
  {
    hide PlaceRow, FloorsAre;
    if rows == [] {
      assert FloorsAre(State(y, [], [], [], [])) by { NoFloors(y); }
    } else {
      var init, last := rows[..|rows| - 1], rows[|rows| - 1];
      assert last in rows;
      RowsFloors(env, y, init);
      LaterLasts(env, y, init, 0);
      StackIsOk(PlaceRows(env, y, init));
      RowFloors(env, PlaceRows(env, y, init), last);
    }
  }

  lemma NoFloors(y: real)
    ensures FloorsAre(State(y, [], [], [], []))
  {
  }

  // ---- one row ----

  /** A message from y: its text at the top, or its line 6 under, or its loop; 18 to the next. */
  predicate MessageStands(m: SeqMessage, y: real, next: real) {
    && m.points != [] && next == LastY(m) + 18.0
    && if m.self then m.points[0].y == y
       else if m.caption.Some? then m.caption.value.box.y == y
       else m.points[0].y == y + 6.0
  }

  predicate NoteStands(n: SeqNote, y: real, next: real) {
    n.box.y == y && next == Foot(n.box) + 18.0
  }

  /** A frame opened at y: the next row 8 under its title. */
  predicate FrameOpens(f: SeqFrame, y: real, next: real) {
    f.box.y == y && next == Foot(f.title) + 8.0
  }

  /** One closed at y: 3 above, and 18 to the next. */
  predicate FrameCloses(f: SeqFrame, y: real, next: real) {
    Foot(f.box) + 3.0 == y && next == Foot(f.box) + 18.0
  }

  /** A divider at y: 9 above, unless that is not 6 clear of the title and the condition before
      it; 12 to the next. */
  predicate DividerStands(f: SeqFrame, e: nat, y: real, next: real)
    requires e < |f.dividers|
  {
    var floor := 6.0 + if e == 0 then Foot(f.title) else DividerFoot(f.dividers[e - 1]);
    f.dividers[e].y == Max(y - 9.0, floor) && next == DividerFoot(f.dividers[e]) + 12.0
  }

  /** Row p of the source, drawn from y, and where the row after it starts. */
  predicate RowStands(messages: seq<SeqMessage>, notes: seq<SeqNote>, frames: seq<SeqFrame>, rows: seq<Row>, p: nat,
                      y: real, next: real)
    requires p < |rows|
  {
    var before, stack := rows[..p], FrameStack(rows[..p]);
    match rows[p]
    case Message(_, _, _, _, _) =>
      var k := |MessageRows(before)|; k < |messages| && MessageStands(messages[k], y, next)
    case Note(_, _, _, _) => var k := |NoteRows(before)|; k < |notes| && NoteStands(notes[k], y, next)
    case Frame(_, _) => var k := |FrameRows(before)|; k < |frames| && FrameOpens(frames[k], y, next)
    case Divider(_, _) =>
      && stack != []
      && var k := stack[|stack| - 1];
         k < |frames| && |DividersOf(before, k)| < |frames[k].dividers|
         && DividerStands(frames[k], |DividersOf(before, k)|, y, next)
    case End => stack != [] && var k := stack[|stack| - 1]; k < |frames| && FrameCloses(frames[k], y, next)
  }

  lemma MessagePlaced(env: Env, y: real, r: Row, framed: bool)
    requires env.Valid() && r.Message? && KnownRow(env.actors, r)
    ensures MessageStands(PlaceMessage(env, y, r, framed), y, BelowMessage(env, y, r))
  {
    hide Measured, Col;
  }

  lemma NotePlaced(env: Env, y: real, r: Row)
    requires env.Valid() && r.Note? && KnownRow(env.actors, r)
    ensures var n := PlaceNote(env, y, r); NoteStands(n, y, y + n.box.h + ROW_GAP)
  {
    hide Measured, Col;
  }

  lemma DividerPlaced(env: Env, s: State, r: Row)
    requires env.Valid() && s.Valid(env) && r.Divider? && s.stack != [] && FloorsAre(s)
    ensures var k, t := s.stack[|s.stack| - 1].f, Divide(env, s, r);
            && k < |s.frames| == |t.frames| && |t.frames[k].dividers| == |s.frames[k].dividers| + 1
            && DividerStands(t.frames[k], |s.frames[k].dividers|, s.y, t.y)
  {
    hide Measured, DividerFoot;
    var open := s.stack[|s.stack| - 1];
    assert FloorIs(s.frames[open.f], open.floor);
    DividerLine(env.fonts, DividerY(s.y, open.floor), r);
    hide PlaceDivider;
  }

  lemma DividerLine(fonts: Fonts, y: real, r: Row)
    requires r.Divider?
    ensures PlaceDivider(fonts, y, r).y == y
  {
    hide Measured;
  }

  lemma ClosePlaced(env: Env, s: State)
    requires env.Valid() && s.Valid(env) && s.stack != []
    ensures var k, t := s.stack[|s.stack| - 1].f, Close(env, s); k < |t.frames| && FrameCloses(t.frames[k], s.y, t.y)
  {
    hide FrameXs, BoxesLeft, BoxesRight, DividersRight, Hold;
  }

  lemma StillStands(f: SeqFrame, g: SeqFrame, y: real, next: real)
    requires Lasts(f, g)
    ensures FrameOpens(f, y, next) ==> FrameOpens(g, y, next)
    ensures Shut(f) && FrameCloses(f, y, next) ==> FrameCloses(g, y, next)
    ensures forall e :: 0 <= e < |f.dividers| && DividerStands(f, e, y, next) ==> DividerStands(g, e, y, next)
  {
    hide DividerFoot;
  }

  // ---- all of them ----

  lemma RowPlaced(env: Env, y: real, rows: seq<Row>, p: nat)
    requires env.Valid() && KnownEnds(env.actors, rows) && p < |rows| && KnownRow(env.actors, rows[p])
    requires KnownEnds(env.actors, rows[..p]) && KnownEnds(env.actors, rows[..p + 1])
    requires rows[p].Divider? || rows[p].End? ==> FrameStack(rows[..p]) != []
    ensures var t := PlaceRows(env, y, rows);
            RowStands(t.messages, t.notes, t.frames, rows, p, PlaceRows(env, y, rows[..p]).y,
                      PlaceRows(env, y, rows[..p + 1]).y)
  {
    hide PlaceRow, MessageRows, NoteRows, FrameRows, FrameStack, DividersOf, PlaceMessage, PlaceNote, AllLast, FramesOk;
    hide MessageStands, NoteStands;
    var before, upTo, r := rows[..p], rows[..p + 1], rows[p];
    assert upTo[..p] == before && upTo[p] == r;
    var s, t := PlaceRows(env, y, before), PlaceRows(env, y, rows);
    assert PlaceRows(env, y, upTo) == PlaceRow(env, s, r);
    PlacedAt(env, y, rows, p);
    if r.Message? {
      MessagePlaced(env, s.y, r, s.stack != []);
      NextY(env, s, r);
    } else if r.Note? {
      NotePlaced(env, s.y, r);
      NextY(env, s, r);
    } else {
      LaterLasts(env, y, rows, p + 1);
      LaterLasts(env, y, upTo, p);
      StackIsFrameStack(env, y, before);
      FrameRowPlaced(env, y, rows, p, s, t);
    }
  }

  lemma NextY(env: Env, s: State, r: Row)
    requires env.Valid() && s.Valid(env) && KnownRow(env.actors, r) && (r.Message? || r.Note?)
    ensures r.Message? ==> PlaceRow(env, s, r).y == BelowMessage(env, s.y, r)
    ensures r.Note? ==> PlaceRow(env, s, r).y == s.y + PlaceNote(env, s.y, r).box.h + ROW_GAP
  {
    hide PlaceMessage, PlaceNote, Hold, BelowMessage, Col;
  }

  lemma FrameRowPlaced(env: Env, y: real, rows: seq<Row>, p: nat, s: State, t: State)
    requires env.Valid() && s.Valid(env) && KnownEnds(env.actors, rows) && p < |rows| && KnownRow(env.actors, rows[p])
    requires KnownEnds(env.actors, rows[..p]) && s == PlaceRows(env, y, rows[..p])
    requires rows[p].Frame? || ((rows[p].Divider? || rows[p].End?) && FrameStack(rows[..p]) != [])
    requires AllLast(PlaceRow(env, s, rows[p]), t) && FramesOk(PlaceRow(env, s, rows[p]))
    requires |s.frames| == |FrameRows(rows[..p])| && SameFrames(s.stack, FrameStack(rows[..p]))
    ensures RowStands(t.messages, t.notes, t.frames, rows, p, s.y, PlaceRow(env, s, rows[p]).y)
  {
    hide MessageRows, NoteRows, FrameRows, FrameStack, DividersOf, Lasts, FramesOk, Divide, Close, OpenFrame;
    hide FrameOpens, FrameCloses, DividerStands, PlaceRows;
    var r := rows[p];
    var u := PlaceRow(env, s, r);
    if r.Frame? {
      OpenedFloor(env.fonts, s.y, r);
      assert FrameOpens(u.frames[|s.frames|], s.y, u.y) by { OpenedStands(env, s, r); }
      StillStands(u.frames[|s.frames|], t.frames[|s.frames|], s.y, u.y);
    } else if r.Divider? {
      RowsFloors(env, y, rows[..p]);
      DividersCounted(env, y, rows[..p]);
      DividerPlaced(env, s, r);
      var k := s.stack[|s.stack| - 1].f;
      CountedAt(s, rows[..p], k);
      StillStands(u.frames[k], t.frames[k], s.y, u.y);
      LongerStill(u.frames[k], t.frames[k]);
    } else {
      ClosePlaced(env, s);
      var k := s.stack[|s.stack| - 1].f;
      LaterLasts(env, y, rows[..p], p);
      ShutNow(env, s);
      StillStands(u.frames[k], t.frames[k], s.y, u.y);
    }
  }

  lemma CountedAt(s: State, rows: seq<Row>, k: nat)
    requires AsMany(s, rows) && k < |s.frames|
    ensures |s.frames[k].dividers| == |DividersOf(rows, k)|
  {
    hide DividersOf, FrameRows;
  }

  lemma LongerStill(f: SeqFrame, g: SeqFrame)
    requires Lasts(f, g)
    ensures |f.dividers| <= |g.dividers|
  {
  }

  lemma OpenedStands(env: Env, s: State, r: Row)
    requires env.Valid() && s.Valid(env) && r.Frame?
    ensures var u := PlaceRow(env, s, r); |s.frames| < |u.frames| && FrameOpens(u.frames[|s.frames|], s.y, u.y)
  {
    OpenedFloor(env.fonts, s.y, r);
    hide OpenFrame, FloorIs;
  }

  lemma ShutNow(env: Env, s: State)
    requires env.Valid() && s.Valid(env) && s.stack != [] && FramesOk(s) && FramesOk(PlaceRow(env, s, End))
    ensures var k := s.stack[|s.stack| - 1].f;
            k < |PlaceRow(env, s, End).frames| && Shut(PlaceRow(env, s, End).frames[k])
  {
    StackIsOk(s);
    StackIsOk(PlaceRow(env, s, End));
    hide FramesOk, CloseFrame, Shut;
    var n, t := |s.stack| - 1, PlaceRow(env, s, End);
    var k := s.stack[n].f;
    forall d | 0 <= d < |t.stack| ensures t.stack[d].f != k {
      HeldFrames(s.stack[..n], s.stack[n].cols, [t.frames[k].box], d);
    }
    assert !OnStack(t.stack, k);
  }

  lemma HeldFrames(stack: seq<Open>, cols: set<nat>, boxes: seq<Rect>, d: nat)
    requires d < |Hold(stack, cols, boxes)|
    ensures |Hold(stack, cols, boxes)| == |stack| && Hold(stack, cols, boxes)[d].f == stack[d].f
  {
  }

  lemma PartInside(rows: seq<Row>, p: nat)
    requires Nesting(rows).Some? && p < |rows| && (rows[p].Divider? || rows[p].End?)
    ensures FrameStack(rows[..p]) != []
  {
    NestingPrefix(rows, p);
    NestingPrefix(rows, p + 1);
    assert rows[..p + 1][..p] == rows[..p];
    StackIsNesting(rows[..p]);
  }

  /** In the finished drawing the rows stand one right under another: the first 24 under the
      heads, each next one where the one before says, and the lifelines end 16 under the last. */
  lemma RowsStack(fonts: Fonts, ir: SequenceIR) returns (ys: seq<real>)
    requires WellFormed(ir)
    ensures var l := Layout(fonts, ir);
            && |ys| == |ir.rows| + 1 && |l.lifelines| == |ir.actors|
            && (forall i :: 0 <= i < |l.lifelines| ==>
                  ys[0] == l.lifelines[i].y1 + 24.0 && ys[|ir.rows|] == l.lifelines[i].y2 + 2.0)
            && forall p :: 0 <= p < |ir.rows| ==>
                 RowStands(l.messages, l.notes, l.frames, ir.rows, p, ys[p], ys[p + 1])
  {
    hide Lifelines, Ready, PlaceRows, PlaceActors, LayoutBetween, TopOf, Distinct, RowStands, FrameStack;
    var env, rows := EnvOf(fonts, ir), ir.rows;
    IsReady(fonts, ir);
    KnownOf(fonts, ir);
    var dx := BetweenShape(env, rows);
    var y := TopOf(env) + 24.0;
    forall p | 0 <= p <= |rows| ensures KnownEnds(env.actors, rows[..p]) {
      LaterLasts(env, y, rows, p);
    }
    ys := seq(|rows| + 1, p requires 0 <= p <= |rows| => PlaceRows(env, y, rows[..p]).y);
    assert rows[..|rows|] == rows && rows[..0] == [];
    NothingPlaced(env, y);
    var l, t := Layout(fonts, ir), Placed(env, rows);
    forall p | 0 <= p < |rows| ensures RowStands(l.messages, l.notes, l.frames, rows, p, ys[p], ys[p + 1]) {
      assert rows[p] in rows;
      if rows[p].Divider? || rows[p].End? {
        PartInside(rows, p);
      }
      RowPlaced(env, y, rows, p);
      StandsMoved(t, l, rows, p, ys[p], ys[p + 1], dx);
    }
  }

  lemma NothingPlaced(env: Env, y: real)
    requires env.Valid()
    ensures PlaceRows(env, y, []).y == y
  {
  }

  lemma StandsMoved(s: State, l: SequenceLayout, rows: seq<Row>, p: nat, y: real, next: real, dx: real)
    requires DrawnFrom(l, s, dx) && p < |rows| && RowStands(s.messages, s.notes, s.frames, rows, p, y, next)
    ensures RowStands(l.messages, l.notes, l.frames, rows, p, y, next)
  {
    hide MessageRows, NoteRows, FrameRows, FrameStack, DividersOf;
    match rows[p]
    case Message(_, _, _, _, _) => assert l.messages[|MessageRows(rows[..p])|]
                                       == MoveMessage(s.messages[|MessageRows(rows[..p])|], dx);
    case Note(_, _, _, _) => assert l.notes[|NoteRows(rows[..p])|] == MoveNote(s.notes[|NoteRows(rows[..p])|], dx);
    case Frame(_, _) => FrameMoved(s.frames[|FrameRows(rows[..p])|], dx);
    case _ =>
      var stack := FrameStack(rows[..p]);
      FrameMoved(s.frames[stack[|stack| - 1]], dx);
  }

  lemma FrameMoved(f: SeqFrame, dx: real)
    ensures var g := MoveFrame(f, dx);
            && g.box.y == f.box.y && g.box.h == f.box.h && g.title.y == f.title.y && g.title.h == f.title.h
            && |g.dividers| == |f.dividers|
            && forall e :: 0 <= e < |f.dividers| ==>
                 g.dividers[e].y == f.dividers[e].y && DividerFoot(g.dividers[e]) == DividerFoot(f.dividers[e])
  {
  }
}
