// How far a frame reaches across: the lifelines its rows name, or with none those of the frame
// around it, and no further than what stands inside it needs (layoutSequence,
// ui/src/diagramSequence.ts).
module SequenceSpans {
  import Counting
  import opened Geometry
  import opened SequenceIR
  import opened SequenceLayout
  import opened SequenceFrames
  import opened SequenceProof
  import opened SequenceEnclosure
  import opened SequenceCanvas
  import opened SequenceTheorem
  import opened SequenceDividers
  import opened SequenceReads

  // ---- which lifelines a frame spans ----

  /** The participants named by the messages and notes written inside frame number f. */
  function ColsIn(actors: seq<Actor>, rows: seq<Row>, f: nat): set<nat>
    requires KnownEnds(actors, rows)
  {
    if rows == [] then {}
    else
      var init, r := rows[..|rows| - 1], rows[|rows| - 1];
      assert r in rows;
      ColsIn(actors, init, f)
      + if (r.Message? || r.Note?) && f in FrameStack(init) then {Col(actors, r.from), Col(actors, r.to)} else {}
  }

  /** The frame around the innermost one open after the rows. */
  function Parent(rows: seq<Row>): Option<nat> {
    var stack := FrameStack(rows);
    if |stack| < 2 then None else Some(stack[|stack| - 2])
  }

  /** What frame f, closed after the rows, spans: the participants its own rows name, or the
      frame's around it so far, or every one. */
  function SpanCols(actors: seq<Actor>, rows: seq<Row>, f: nat): set<nat>
    requires KnownEnds(actors, rows)
  {
    if ColsIn(actors, rows, f) != {} then ColsIn(actors, rows, f)
    else if Parent(rows).Some? && ColsIn(actors, rows, Parent(rows).value) != {} then
      ColsIn(actors, rows, Parent(rows).value)
    else Counting.Below(|actors|)
  }

  // ---- what the stack holds of them ----

  function Union(stack: seq<Open>, d: nat): set<nat>
    requires d <= |stack|
    decreases |stack| - d
  {
    if d == |stack| then {} else stack[d].cols + Union(stack, d + 1)
  }

  /** Each open frame and those open inside it hold together the columns of its rows. */
  ghost predicate ColsOk(env: Env, rows: seq<Row>, s: State)
    requires env.Valid() && KnownEnds(env.actors, rows)
  {
    forall d: nat :: d < |s.stack| ==> Union(s.stack, d) == ColsIn(env.actors, rows, s.stack[d].f)
  }

  lemma {:induction false} UnionHold(stack: seq<Open>, cols: set<nat>, boxes: seq<Rect>, d: nat)
    requires d < |stack|
    ensures |Hold(stack, cols, boxes)| == |stack| && Hold(stack, cols, boxes)[d].f == stack[d].f
    ensures Union(Hold(stack, cols, boxes), d) == Union(stack, d) + cols
    decreases |stack| - d
  {
    var more := Hold(stack, cols, boxes);
    if d < |stack| - 1 {
      UnionHold(stack, cols, boxes, d + 1);
      assert more[d] == stack[d];
    } else {
      assert Union(more, d + 1) == {} && Union(stack, d + 1) == {};
    }
  }

  lemma {:induction false} UnionPrefix(stack: seq<Open>, top: Open, d: nat)
    requires d <= |stack|
    ensures Union(stack + [top], d) == Union(stack, d) + top.cols
    decreases |stack| - d
  {
    var all := stack + [top];
    if d == |stack| {
      assert Union(all, d + 1) == {};
    } else {
      UnionPrefix(stack, top, d + 1);
      assert all[d] == stack[d];
    }
  }

  lemma {:induction false} SameUnion(a: seq<Open>, b: seq<Open>, d: nat)
    requires |a| == |b| && d <= |a| && forall i :: d <= i < |a| ==> a[i].cols == b[i].cols
    ensures Union(a, d) == Union(b, d)
    decreases |a| - d
  {
    if d < |a| {
      SameUnion(a, b, d + 1);
    }
  }

  lemma {:induction false} NotOpened(actors: seq<Actor>, rows: seq<Row>, f: nat)
    requires KnownEnds(actors, rows) && f >= |FrameRows(rows)|
    ensures ColsIn(actors, rows, f) == {}
  {
    if rows != [] {
      var init := rows[..|rows| - 1];
      OpenAreWritten(init);
      NotOpened(actors, init, f);
    }
  }

  lemma ColsMore(actors: seq<Actor>, rows: seq<Row>, r: Row, f: nat)
    requires KnownEnds(actors, rows) && KnownEnds(actors, rows + [r]) && KnownRow(actors, r)
    ensures ColsIn(actors, rows + [r], f)
            == ColsIn(actors, rows, f)
               + if (r.Message? || r.Note?) && f in FrameStack(rows) then {Col(actors, r.from), Col(actors, r.to)}
               else {}
  {
    hide FrameStack;
    assert (rows + [r])[..|rows|] == rows;
  }

  lemma HeldCols(env: Env, rows: seq<Row>, r: Row, s: State, cols: set<nat>, boxes: seq<Rect>)
    requires env.Valid() && KnownEnds(env.actors, rows) && KnownEnds(env.actors, rows + [r]) && KnownRow(env.actors, r)
    requires r.Message? || r.Note?
    requires ColsOk(env, rows, s) && SameFrames(s.stack, FrameStack(rows))
    requires cols == {Col(env.actors, r.from), Col(env.actors, r.to)}
    ensures var held := Hold(s.stack, cols, boxes);
            |held| == |s.stack|
            && forall d: nat :: d < |held| ==> Union(held, d) == ColsIn(env.actors, rows + [r], held[d].f)
  {
    hide FrameStack, ColsIn, Hold, Union;
    forall d: nat | d < |s.stack|
      ensures |Hold(s.stack, cols, boxes)| == |s.stack|
      ensures Union(Hold(s.stack, cols, boxes), d) == ColsIn(env.actors, rows + [r], Hold(s.stack, cols, boxes)[d].f)
    {
      UnionHold(s.stack, cols, boxes, d);
      ColsMore(env.actors, rows, r, s.stack[d].f);
      assert s.stack[d].f == FrameStack(rows)[d];
    }
    HoldLength(s.stack, cols, boxes);
  }

  lemma NothingHeld(cols: set<nat>, boxes: seq<Rect>)
    ensures Hold([], cols, boxes) == []
  {
  }

  lemma OpenedCols(env: Env, rows: seq<Row>, r: Row, s: State)
    requires env.Valid() && s.Valid(env) && r.Frame? && KnownEnds(env.actors, rows) && KnownEnds(env.actors, rows + [r])
    requires ColsOk(env, rows, s) && |s.frames| == |FrameRows(rows)|
    ensures ColsOk(env, rows + [r], PutFrame(env, s, r))
  {
    hide FrameStack, FrameRows, ColsIn, OpenFrame;
    var t := PutFrame(env, s, r);
    var top := t.stack[|s.stack|];
    assert t.stack == s.stack + [top] && top.cols == {};
    forall d: nat | d < |t.stack| ensures Union(t.stack, d) == ColsIn(env.actors, rows + [r], t.stack[d].f) {
      ColsMore(env.actors, rows, r, t.stack[d].f);
      UnionPrefix(s.stack, top, d);
      if d == |s.stack| {
        NotOpened(env.actors, rows, |s.frames|);
      }
    }
  }

  lemma DividedCols(env: Env, rows: seq<Row>, r: Row, s: State)
    requires env.Valid() && s.Valid(env) && r.Divider? && s.stack != []
    requires KnownEnds(env.actors, rows) && KnownEnds(env.actors, rows + [r]) && ColsOk(env, rows, s)
    ensures ColsOk(env, rows + [r], Divide(env, s, r))
  {
    hide FrameStack, ColsIn, PlaceDivider, DividerY, DividerFoot;
    var t := Divide(env, s, r);
    forall d: nat | d < |t.stack| ensures Union(t.stack, d) == ColsIn(env.actors, rows + [r], t.stack[d].f) {
      ColsMore(env.actors, rows, r, t.stack[d].f);
      SameUnion(t.stack, s.stack, d);
    }
  }

  lemma ClosedCols(env: Env, rows: seq<Row>, s: State)
    requires env.Valid() && s.Valid(env) && s.stack != []
    requires KnownEnds(env.actors, rows) && KnownEnds(env.actors, rows + [End]) && ColsOk(env, rows, s)
    ensures ColsOk(env, rows + [End], Close(env, s))
  {
    hide FrameStack, ColsIn, CloseFrame, Union, Hold;
    var n := |s.stack| - 1;
    var top, rest := s.stack[n], s.stack[..n];
    var t := Close(env, s);
    var box := t.frames[top.f].box;
    assert s.stack == rest + [top];
    if rest == [] {
      NothingHeld(top.cols, [box]);
    }
    forall d: nat | d < |t.stack| ensures Union(t.stack, d) == ColsIn(env.actors, rows + [End], t.stack[d].f) {
      assert d < |rest| by { HoldLength(rest, top.cols, [box]); }
      UnionHold(rest, top.cols, [box], d);
      UnionPrefix(rest, top, d);
      assert s.stack[d] == rest[d];
      ColsMore(env.actors, rows, End, s.stack[d].f);
    }
  }

  lemma HoldLength(stack: seq<Open>, cols: set<nat>, boxes: seq<Rect>)
    ensures |Hold(stack, cols, boxes)| == |stack|
  {
  }

  lemma RowCols(env: Env, rows: seq<Row>, r: Row, s: State)
    requires env.Valid() && s.Valid(env) && KnownRow(env.actors, r)
    requires KnownEnds(env.actors, rows) && KnownEnds(env.actors, rows + [r]) && ColsOk(env, rows, s)
    requires |s.frames| == |FrameRows(rows)| && SameFrames(s.stack, FrameStack(rows))
    ensures ColsOk(env, rows + [r], PlaceRow(env, s, r))
  {
    hide FrameStack, FrameRows, ColsIn, PlaceMessage, PlaceNote, Hold, BelowMessage, Divide, Close, PutFrame;
    hide MessageBoxes;
    match r
    case Message(from, to, _, _, _) =>
      var i, j := Col(env.actors, from), Col(env.actors, to);
      HeldCols(env, rows, r, s, {i, j}, MessageBoxes(env, PlaceMessage(env, s.y, r, s.stack != []), i));
    case Note(from, to, _, _) =>
      HeldCols(env, rows, r, s, {Col(env.actors, from), Col(env.actors, to)}, [PlaceNote(env, s.y, r).box]);
    case Frame(_, _) => OpenedCols(env, rows, r, s);
    case Divider(_, _) => if s.stack != [] { DividedCols(env, rows, r, s); }
    case End => if s.stack != [] { ClosedCols(env, rows, s); }
  }

  lemma {:induction false} RowsCols(env: Env, y: real, rows: seq<Row>)
    requires env.Valid() && KnownEnds(env.actors, rows)
    ensures ColsOk(env, rows, PlaceRows(env, y, rows))
  {
    hide PlaceRow, ColsOk;
    if rows == [] {
      assert ColsOk(env, [], State(y, [], [], [], [])) by { NoCols(env, y); }
    } else {
      var init, last := rows[..|rows| - 1], rows[|rows| - 1];
      assert rows == init + [last] && last in rows;
      RowsCols(env, y, init);
      StackIsFrameStack(env, y, init);
      RowCols(env, init, last, PlaceRows(env, y, init));
    }
  }

  lemma NoCols(env: Env, y: real)
    requires env.Valid()
    ensures ColsOk(env, [], State(y, [], [], [], []))
  {
  }

  // ---- what a frame holds ----

  /** A box a frame makes room for: a message's text or loop, a note, a frame inside. */
  predicate Drawn(messages: seq<SeqMessage>, notes: seq<SeqNote>, frames: seq<SeqFrame>, b: Rect) {
    || (exists k :: 0 <= k < |messages| && MessageBox(messages[k], b))
    || (exists k :: 0 <= k < |notes| && notes[k].box == b)
    || (exists k :: 0 <= k < |frames| && Shut(frames[k]) && frames[k].box == b)
  }

  predicate MessageBox(m: SeqMessage, b: Rect) {
    (m.caption.Some? && m.caption.value.box == b)
    || (m.self && m.points != [] && b == Rect(m.points[0].x, 0.0, 24.0, 0.0))
  }

  predicate AllDrawn(s: State) {
    forall d :: 0 <= d < |s.stack| ==> forall b <- s.stack[d].boxes :: Drawn(s.messages, s.notes, s.frames, b)
  }

  predicate Keeps(s: State, t: State) {
    && s.messages <= t.messages && s.notes <= t.notes && |s.frames| <= |t.frames|
    && forall k :: 0 <= k < |s.frames| && Shut(s.frames[k]) ==> t.frames[k] == s.frames[k]
  }

  lemma StillDrawn(s: State, t: State, b: Rect)
    requires Keeps(s, t) && Drawn(s.messages, s.notes, s.frames, b)
    ensures Drawn(t.messages, t.notes, t.frames, b)
  {
    if k :| 0 <= k < |s.messages| && MessageBox(s.messages[k], b) {
      assert t.messages[k] == s.messages[k];
    } else if k :| 0 <= k < |s.notes| && s.notes[k].box == b {
      assert t.notes[k] == s.notes[k];
    } else {
      var k :| 0 <= k < |s.frames| && Shut(s.frames[k]) && s.frames[k].box == b;
      assert t.frames[k] == s.frames[k];
    }
  }

  lemma RowKeeps(env: Env, s: State, r: Row)
    requires env.Valid() && s.Valid(env) && KnownRow(env.actors, r) && StackOk(s)
    ensures Keeps(s, PlaceRow(env, s, r))
  {
    hide PlaceMessage, PlaceNote, Hold, BelowMessage, CloseFrame, OpenFrame, PlaceDivider, MessageBoxes;
    RowAppends(env, s, r);
    if s.stack != [] {
      assert !Shut(s.frames[s.stack[|s.stack| - 1].f]);
    }
  }

  /** What the innermost open frame comes to hold. */
  lemma HeldDrawn(s: State, t: State, stack: seq<Open>, cols: set<nat>, boxes: seq<Rect>)
    requires AllDrawn(s) && Keeps(s, t) && |stack| <= |s.stack| && stack == s.stack[..|stack|]
    requires t.stack == Hold(stack, cols, boxes) && forall b <- boxes :: Drawn(t.messages, t.notes, t.frames, b)
    ensures AllDrawn(t)
  {
    hide Drawn, Keeps;
    forall d | 0 <= d < |t.stack| ensures forall b <- t.stack[d].boxes :: Drawn(t.messages, t.notes, t.frames, b) {
      forall b | b in t.stack[d].boxes ensures Drawn(t.messages, t.notes, t.frames, b) {
        if b !in boxes || d < |stack| - 1 {
          assert b in s.stack[d].boxes;
          StillDrawn(s, t, b);
        }
      }
    }
  }

  lemma MessageDrawn(env: Env, s: State, r: Row)
    requires env.Valid() && s.Valid(env) && r.Message? && KnownRow(env.actors, r)
    ensures var t, m := PutMessage(env, s, r), PlaceMessage(env, s.y, r, s.stack != []);
            forall b <- MessageBoxes(env, m, Col(env.actors, r.from)) :: Drawn(t.messages, t.notes, t.frames, b)
  {
    hide Measured, Hold, BelowMessage, Col;
    var t, m := PutMessage(env, s, r), PlaceMessage(env, s.y, r, s.stack != []);
    assert t.messages[|s.messages|] == m;
    LoopStart(env, s.y, r, s.stack != []);
    hide PlaceMessage;
    forall b | b in MessageBoxes(env, m, Col(env.actors, r.from)) ensures Drawn(t.messages, t.notes, t.frames, b) {
      assert MessageBox(t.messages[|s.messages|], b);
    }
  }

  lemma LoopStart(env: Env, y: real, r: Row, framed: bool)
    requires env.Valid() && r.Message? && KnownRow(env.actors, r)
    ensures var m := PlaceMessage(env, y, r, framed);
            m.self ==> m.points != [] && m.points[0].x == env.xs[Col(env.actors, r.from)]
  {
    hide Measured;
  }

  lemma RowDraws(env: Env, s: State, r: Row)
    requires env.Valid() && s.Valid(env) && KnownRow(env.actors, r) && FramesOk(s) && AllDrawn(s)
    requires FramesOk(PlaceRow(env, s, r))
    ensures AllDrawn(PlaceRow(env, s, r))
  {
    hide PlaceMessage, PlaceNote, BelowMessage, Divide, PutFrame, Close, MessageBoxes, Drawn, HeldOk, PairOk, FloorsOk;
    hide FrameOk, Hold, Keeps, Shut, Col;
    var t := PlaceRow(env, s, r);
    RowKeeps(env, s, r);
    assert s.stack == s.stack[..|s.stack|];
    match r
    case Message(from, to, _, _, _) =>
      MessageDrawn(env, s, r);
      HeldDrawn(s, t, s.stack, {Col(env.actors, from), Col(env.actors, to)},
                MessageBoxes(env, PlaceMessage(env, s.y, r, s.stack != []), Col(env.actors, from)));
    case Note(from, to, _, _) =>
      NoteDrawn(env, s, r);
      HeldDrawn(s, t, s.stack, {Col(env.actors, from), Col(env.actors, to)}, [PlaceNote(env, s.y, r).box]);
    case Frame(_, _) => OpenedDrawn(env, s, r);
    case Divider(_, _) => if s.stack != [] { DividedDrawn(env, s, r); }
    case End => if s.stack != [] { ClosedDrawn(env, s); }
  }

  lemma NoteDrawn(env: Env, s: State, r: Row)
    requires env.Valid() && s.Valid(env) && r.Note? && KnownRow(env.actors, r)
    ensures var t := PutNote(env, s, r); Drawn(t.messages, t.notes, t.frames, PlaceNote(env, s.y, r).box)
  {
    hide PlaceNote, Hold, MessageBox, Col;
    var t := PutNote(env, s, r);
    assert t.notes[|s.notes|].box == PlaceNote(env, s.y, r).box;
  }

  lemma OpenedDrawn(env: Env, s: State, r: Row)
    requires env.Valid() && s.Valid(env) && r.Frame? && AllDrawn(s) && Keeps(s, PutFrame(env, s, r))
    ensures AllDrawn(PutFrame(env, s, r))
  {
    hide Drawn, Keeps, OpenFrame;
    var t := PutFrame(env, s, r);
    forall d | 0 <= d < |t.stack| ensures forall b <- t.stack[d].boxes :: Drawn(t.messages, t.notes, t.frames, b) {
      forall b | b in t.stack[d].boxes ensures Drawn(t.messages, t.notes, t.frames, b) {
        assert t.stack[d] == s.stack[d];
        StillDrawn(s, t, b);
      }
    }
  }

  lemma DividedDrawn(env: Env, s: State, r: Row)
    requires env.Valid() && s.Valid(env) && r.Divider? && s.stack != [] && AllDrawn(s) && Keeps(s, Divide(env, s, r))
    ensures AllDrawn(Divide(env, s, r))
  {
    hide Drawn, Keeps, PlaceDivider, DividerY, DividerFoot;
    var t := Divide(env, s, r);
    forall d | 0 <= d < |t.stack| ensures forall b <- t.stack[d].boxes :: Drawn(t.messages, t.notes, t.frames, b) {
      forall b | b in t.stack[d].boxes ensures Drawn(t.messages, t.notes, t.frames, b) {
        assert t.stack[d].boxes == s.stack[d].boxes;
        StillDrawn(s, t, b);
      }
    }
  }

  lemma ClosedDrawn(env: Env, s: State)
    requires env.Valid() && s.Valid(env) && s.stack != [] && AllDrawn(s) && Keeps(s, Close(env, s))
    requires StackOk(Close(env, s)) && StackOk(s)
    ensures AllDrawn(Close(env, s))
  {
    hide Drawn, Keeps, CloseFrame, Shut, Hold;
    var n, t := |s.stack| - 1, Close(env, s);
    var top, rest := s.stack[n], s.stack[..n];
    NowShut(env, s);
    assert Drawn(t.messages, t.notes, t.frames, t.frames[top.f].box) by { ShutDrawn(t, top.f); }
    HeldDrawn(s, t, rest, top.cols, [t.frames[top.f].box]);
  }

  lemma ShutDrawn(t: State, k: nat)
    requires k < |t.frames| && Shut(t.frames[k])
    ensures Drawn(t.messages, t.notes, t.frames, t.frames[k].box)
  {
    hide Shut;
  }

  lemma NowShut(env: Env, s: State)
    requires env.Valid() && s.Valid(env) && s.stack != [] && StackOk(s) && StackOk(Close(env, s))
    ensures var k := s.stack[|s.stack| - 1].f; k < |Close(env, s).frames| && Shut(Close(env, s).frames[k])
  {
    hide CloseFrame, Shut;
    var n, t := |s.stack| - 1, Close(env, s);
    var k := s.stack[n].f;
    forall d | 0 <= d < |t.stack| ensures t.stack[d].f != k {
      HoldFrames(s.stack[..n], s.stack[n].cols, [t.frames[k].box], d);
    }
    assert !OnStack(t.stack, k);
  }

  lemma HoldFrames(stack: seq<Open>, cols: set<nat>, boxes: seq<Rect>, d: nat)
    requires d < |Hold(stack, cols, boxes)|
    ensures |Hold(stack, cols, boxes)| == |stack| && Hold(stack, cols, boxes)[d].f == stack[d].f
  {
  }

  lemma {:induction false} RowsDraw(env: Env, y: real, rows: seq<Row>)
    requires env.Valid() && KnownEnds(env.actors, rows)
    ensures AllDrawn(PlaceRows(env, y, rows)) && FramesOk(PlaceRows(env, y, rows))
  {
    hide PlaceRow, AllDrawn, FramesOk;
    if rows == [] {
      assert AllDrawn(State(y, [], [], [], [])) && FramesOk(State(y, [], [], [], [])) by { NothingDrawn(y); }
    } else {
      var init, last := rows[..|rows| - 1], rows[|rows| - 1];
      assert last in rows;
      RowsDraw(env, y, init);
      FramesKept(env, PlaceRows(env, y, init), last);
      RowDraws(env, PlaceRows(env, y, init), last);
    }
  }

  lemma NothingDrawn(y: real)
    ensures AllDrawn(State(y, [], [], [], [])) && FramesOk(State(y, [], [], [], []))
  {
  }

  // ---- the span of a frame as it closes ----

  lemma {:induction false} PickedOnly(xs: seq<real>, cols: set<nat>, v: real) returns (c: nat)
    requires v in Picked(xs, cols)
    ensures c in cols && c < |xs| && xs[c] == v
  {
    var last := |xs| - 1;
    if v in Picked(xs[..last], cols) {
      c := PickedOnly(xs[..last], cols, v);
    } else {
      c := last;
    }
  }

  /** Room for the lifelines of some columns, 16 on either side. */
  predicate Reaches(f: SeqFrame, xs: seq<real>, cols: set<nat>) {
    forall c <- cols :: c < |xs| ==> f.box.x + 16.0 <= xs[c] && xs[c] + 16.0 <= f.box.x + f.box.w
  }

  /** Its left side is as far right as its lifelines, 16 in, or something it holds, 12 in, let
      it be. */
  ghost predicate LeftSnug(f: SeqFrame, xs: seq<real>, cols: set<nat>, boxes: seq<Rect>) {
    || (exists c :: c in cols && c < |xs| && f.box.x + 16.0 == xs[c])
    || (exists b :: b in boxes && f.box.x + 12.0 == b.x)
  }

  /** Its right side likewise, or as its title or a condition in it asks. */
  ghost predicate RightSnug(f: SeqFrame, xs: seq<real>, cols: set<nat>, boxes: seq<Rect>) {
    var right := f.box.x + f.box.w;
    || (exists c :: c in cols && c < |xs| && right == xs[c] + 16.0)
    || (exists b :: b in boxes && right == b.x + b.w + 12.0)
    || right == f.title.x + f.title.w + 12.0
    || (exists e :: 0 <= e < |f.dividers| && ConditionEnds(f.dividers[e], right))
  }

  predicate ConditionEnds(d: FrameDivider, right: real) {
    d.caption.Some? && right == d.caption.value.box.x + d.caption.value.box.w + 12.0
  }

  lemma {:induction false} LeftIs(boxes: seq<Rect>, x0: real)
    ensures BoxesLeft(boxes, x0) == x0 || exists b :: b in boxes && BoxesLeft(boxes, x0) + 12.0 == b.x
  {
    if boxes != [] {
      var n := |boxes| - 1;
      LeftIs(boxes[..n], x0);
      assert boxes[n] in boxes && forall b <- boxes[..n] :: b in boxes;
    }
  }

  lemma {:induction false} RightOfBoxes(boxes: seq<Rect>, x1: real)
    ensures BoxesRight(boxes, x1) == x1 || exists b :: b in boxes && BoxesRight(boxes, x1) == b.x + b.w + 12.0
  {
    if boxes != [] {
      var n := |boxes| - 1;
      RightOfBoxes(boxes[..n], x1);
      assert boxes[n] in boxes && forall b <- boxes[..n] :: b in boxes;
    }
  }

  lemma {:induction false} RightOfDividers(dividers: seq<FrameDivider>, x0: real, x1: real)
    ensures DividersRight(dividers, x0, x1) == x1
            || exists e :: 0 <= e < |dividers| && dividers[e].caption.Some?
                           && DividersRight(dividers, x0, x1) == x0 + 12.0 + dividers[e].caption.value.box.w + 12.0
  {
    if dividers != [] {
      RightOfDividers(dividers[..|dividers| - 1], x0, x1);
    }
  }

  /** The columns a frame spans as it closes. */
  function ClosingCols(env: Env, open: Open, parent: Option<Open>): set<nat> {
    if open.cols != {} then open.cols
    else if parent.Some? && parent.value.cols != {} then parent.value.cols
    else Counting.Below(|env.xs|)
  }

  lemma SpannedXs(env: Env, open: Open, parent: Option<Open>)
    requires env.Valid() && (forall c <- open.cols :: c < |env.xs|)
    requires parent.Some? ==> forall c <- parent.value.cols :: c < |env.xs|
    ensures var cols, xs := ClosingCols(env, open, parent), FrameXs(env, open, parent);
            && (forall c <- cols :: c < |env.xs| && env.xs[c] in xs)
            && (forall v <- xs :: exists c :: c in cols && c < |env.xs| && env.xs[c] == v)
  {
    var cols, xs := ClosingCols(env, open, parent), FrameXs(env, open, parent);
    forall v | v in xs ensures exists c :: c in cols && c < |env.xs| && env.xs[c] == v {
      if xs == env.xs && cols == Counting.Below(|env.xs|) {
        var c :| 0 <= c < |xs| && xs[c] == v;
      } else {
        var c := PickedOnly(env.xs, cols, v);
      }
    }
  }

  lemma ClosedReaches(env: Env, y: real, f: SeqFrame, open: Open, parent: Option<Open>)
    requires env.Valid() && (forall c <- open.cols :: c < |env.xs|)
    requires parent.Some? ==> forall c <- parent.value.cols :: c < |env.xs|
    ensures var g, cols := CloseFrame(env, y, f, open, parent), ClosingCols(env, open, parent);
            Reaches(g, env.xs, cols) && LeftSnug(g, env.xs, cols, open.boxes)
  {
    hide FrameXs, BoxesLeft, BoxesRight, DividersRight, ClosingCols;
    var g, cols, xs := CloseFrame(env, y, f, open, parent), ClosingCols(env, open, parent), FrameXs(env, open, parent);
    SpannedXs(env, open, parent);
    LeftIs(open.boxes, Least(xs) - FRAME_PAD);
    assert Least(xs) in xs;
  }

  lemma ClosedRight(env: Env, y: real, f: SeqFrame, open: Open, parent: Option<Open>)
    requires env.Valid() && (forall c <- open.cols :: c < |env.xs|)
    requires parent.Some? ==> forall c <- parent.value.cols :: c < |env.xs|
    ensures var g, cols := CloseFrame(env, y, f, open, parent), ClosingCols(env, open, parent);
            RightSnug(g, env.xs, cols, open.boxes)
  {
    hide FrameXs, BoxesLeft, BoxesRight, DividersRight, ClosingCols, Least;
    var g, cols, xs := CloseFrame(env, y, f, open, parent), ClosingCols(env, open, parent), FrameXs(env, open, parent);
    SpannedXs(env, open, parent);
    var x0 := BoxesLeft(open.boxes, Least(xs) - FRAME_PAD);
    var x1 := BoxesRight(open.boxes, Greatest(xs) + FRAME_PAD);
    RightOfBoxes(open.boxes, Greatest(xs) + FRAME_PAD);
    RightOfDividers(f.dividers, x0, x1);
    assert Greatest(xs) in xs;
    if g.box.x + g.box.w == DividersRight(f.dividers, x0, x1) != x1 {
      var e :| 0 <= e < |f.dividers| && f.dividers[e].caption.Some?
               && DividersRight(f.dividers, x0, x1) == x0 + 12.0 + f.dividers[e].caption.value.box.w + 12.0;
      assert ConditionEnds(g.dividers[e], g.box.x + g.box.w);
    }
  }

  lemma ClosingIs(env: Env, rows: seq<Row>, s: State)
    requires env.Valid() && KnownEnds(env.actors, rows) && ColsOk(env, rows, s) && s.stack != []
    requires SameFrames(s.stack, FrameStack(rows))
    ensures var n := |s.stack| - 1;
            var parent := if n == 0 then None else Some(s.stack[n - 1]);
            && FrameStack(rows) != [] && s.stack[n].f == FrameStack(rows)[|FrameStack(rows)| - 1]
            && ClosingCols(env, s.stack[n], parent) == SpanCols(env.actors, rows, s.stack[n].f)
  {
    hide FrameStack, ColsIn;
    var n := |s.stack| - 1;
    assert Union(s.stack, n + 1) == {};
    assert Union(s.stack, n) == s.stack[n].cols;
    if n > 0 {
      assert Union(s.stack, n - 1) == s.stack[n - 1].cols + s.stack[n].cols;
    }
  }

  // ---- in the finished drawing ----

  lemma KeepsOn(a: State, b: State, c: State)
    requires Keeps(a, b) && Keeps(b, c)
    ensures Keeps(a, c)
  {
    hide Shut;
  }

  lemma {:induction false} LaterKeeps(env: Env, y: real, rows: seq<Row>, p: nat)
    requires env.Valid() && KnownEnds(env.actors, rows) && p <= |rows|
    ensures KnownEnds(env.actors, rows[..p]) && Keeps(PlaceRows(env, y, rows[..p]), PlaceRows(env, y, rows))
  {
    hide PlaceRow, Keeps;
    if p == |rows| {
      assert rows[..p] == rows;
      KeepsItself(PlaceRows(env, y, rows));
    } else {
      var init, last := rows[..|rows| - 1], rows[|rows| - 1];
      assert last in rows;
      LaterKeeps(env, y, init, p);
      assert init[..p] == rows[..p];
      RowsDraw(env, y, init);
      RowKeeps(env, PlaceRows(env, y, init), last);
      KeepsOn(PlaceRows(env, y, rows[..p]), PlaceRows(env, y, init), PlaceRows(env, y, rows));
    }
  }

  lemma KeepsItself(s: State)
    ensures Keeps(s, s)
  {
  }

  /** Something drawn has its left side there. */
  ghost predicate StartsAt(messages: seq<SeqMessage>, notes: seq<SeqNote>, frames: seq<SeqFrame>, x: real) {
    exists b :: Drawn(messages, notes, frames, b) && b.x == x
  }

  ghost predicate EndsAt(messages: seq<SeqMessage>, notes: seq<SeqNote>, frames: seq<SeqFrame>, x: real) {
    exists b :: Drawn(messages, notes, frames, b) && b.x + b.w == x
  }

  /** A frame's span: 16 round the lifelines it names, and no further than those, or something
      drawn 12 in from its side, or its title or a condition, ask. */
  ghost predicate FrameSpans(messages: seq<SeqMessage>, notes: seq<SeqNote>, frames: seq<SeqFrame>, f: SeqFrame,
                             xs: seq<real>, cols: set<nat>) {
    var right := f.box.x + f.box.w;
    && Reaches(f, xs, cols)
    && ((exists c :: c in cols && c < |xs| && f.box.x + 16.0 == xs[c])
        || StartsAt(messages, notes, frames, f.box.x + 12.0))
    && ((exists c :: c in cols && c < |xs| && right == xs[c] + 16.0) || EndsAt(messages, notes, frames, right - 12.0)
        || right == f.title.x + f.title.w + 12.0
        || exists e :: 0 <= e < |f.dividers| && ConditionEnds(f.dividers[e], right))
  }

  lemma SpansSoFar(env: Env, y: real, rows: seq<Row>, e: nat)
    requires env.Valid() && KnownEnds(env.actors, rows) && e < |rows| && rows[e].End?
    requires KnownEnds(env.actors, rows[..e]) && FrameStack(rows[..e]) != []
    ensures var t, k := PlaceRows(env, y, rows), FrameStack(rows[..e])[|FrameStack(rows[..e])| - 1];
            k < |t.frames|
            && FrameSpans(t.messages, t.notes, t.frames, t.frames[k], env.xs, SpanCols(env.actors, rows[..e], k))
  {
    hide PlaceRow, FrameStack, SpanCols, AllDrawn, Keeps, FramesOk, Drawn, Close, Reaches, ColsOk, FrameSpans;
    var before, upTo := rows[..e], rows[..e + 1];
    assert upTo[..e] == before && upTo[e] == rows[e];
    var s, t := PlaceRows(env, y, before), PlaceRows(env, y, rows);
    RowsCols(env, y, before);
    StackIsFrameStack(env, y, before);
    RowsDraw(env, y, before);
    LaterKeeps(env, y, rows, e + 1);
    RowsDraw(env, y, upTo);
    LaterKeeps(env, y, upTo, e);
    assert PlaceRows(env, y, upTo) == PlaceRow(env, s, End);
    ClosingIs(env, before, s);
    EndCloses(env, s);
    SpansClosed(env, s, t, before);
  }

  lemma EndCloses(env: Env, s: State)
    requires env.Valid() && s.Valid(env) && s.stack != []
    ensures PlaceRow(env, s, End) == Close(env, s)
  {
    hide Close;
  }

  lemma SpansClosed(env: Env, s: State, t: State, rows: seq<Row>)
    requires env.Valid() && s.Valid(env) && s.stack != [] && KnownEnds(env.actors, rows)
    requires FramesOk(s) && FramesOk(Close(env, s)) && AllDrawn(s) && Keeps(s, Close(env, s)) && Keeps(Close(env, s), t)
    requires var n := |s.stack| - 1;
             ClosingCols(env, s.stack[n], if n == 0 then None else Some(s.stack[n - 1]))
             == SpanCols(env.actors, rows, s.stack[n].f)
    ensures var k := s.stack[|s.stack| - 1].f;
            k < |t.frames|
            && FrameSpans(t.messages, t.notes, t.frames, t.frames[k], env.xs, SpanCols(env.actors, rows, k))
  {
    hide SpanCols, Drawn, CloseFrame, ClosingCols, HeldOk, PairOk, FloorsOk, FrameOk, Reaches, Hold, Shut;
    var n := |s.stack| - 1;
    var open, rest := s.stack[n], s.stack[..n];
    var parent := if rest == [] then None else Some(rest[|rest| - 1]);
    assert parent == if n == 0 then None else Some(s.stack[n - 1]);
    var k, g := open.f, CloseFrame(env, s.y, s.frames[open.f], open, parent);
    NowShut(env, s);
    assert Close(env, s).frames[k] == g;
    assert t.frames[k] == g;
    ClosedReaches(env, s.y, s.frames[k], open, parent);
    ClosedRight(env, s.y, s.frames[k], open, parent);
    KeepsOn(s, Close(env, s), t);
    forall b | b in open.boxes ensures Drawn(t.messages, t.notes, t.frames, b) {
      StillDrawn(s, t, b);
    }
  }

  /** Every frame of the finished drawing, by the row that closes it, spans the lifelines its rows
      name, or the frame's around it so far where it has none, or all; and no more. */
  lemma FramesSpan(fonts: Fonts, ir: SequenceIR, e: nat)
    requires WellFormed(ir) && e < |ir.rows| && ir.rows[e].End?
    ensures KnownEnds(ir.actors, ir.rows[..e]) && FrameStack(ir.rows[..e]) != []
    ensures var l, stack := Layout(fonts, ir), FrameStack(ir.rows[..e]);
            var k := stack[|stack| - 1];
            && |l.lifelines| == |ir.actors| && k < |l.frames|
            && FrameSpans(l.messages, l.notes, l.frames, l.frames[k], XsOf(l.lifelines),
                          SpanCols(ir.actors, ir.rows[..e], k))
  {
    hide Lifelines, Ready, PlaceRows, PlaceActors, LayoutBetween, FrameSpans, TopOf, FrameStack, SpanCols, Distinct;
    hide PlacedLifelines;
    var env, rows := EnvOf(fonts, ir), ir.rows;
    IsReady(fonts, ir);
    KnownOf(fonts, ir);
    EndInside(rows, e);
    var dx := BetweenShape(env, rows);
    var y := TopOf(env) + 24.0;
    SpansSoFar(env, y, rows, e);
    var k := FrameStack(rows[..e])[|FrameStack(rows[..e])| - 1];
    SpansMoved(env, Placed(env, rows), Layout(fonts, ir), PlacedLifelines(env, rows), k,
               SpanCols(ir.actors, rows[..e], k),
               dx);
  }

  function XsOf(lifelines: seq<SeqLifeline>): (xs: seq<real>)
    ensures |xs| == |lifelines| && forall k :: 0 <= k < |xs| ==> xs[k] == lifelines[k].x
  {
    MapSeq((l: SeqLifeline) => l.x, lifelines)
  }

  lemma EndInside(rows: seq<Row>, e: nat)
    requires Nesting(rows).Some? && e < |rows| && rows[e].End?
    ensures FrameStack(rows[..e]) != []
  {
    NestingPrefix(rows, e);
    NestingPrefix(rows, e + 1);
    assert rows[..e + 1][..e] == rows[..e];
    StackIsNesting(rows[..e]);
  }

  lemma DrawnMoves(s: State, l: SequenceLayout, b: Rect, dx: real)
    requires DrawnFrom(l, s, dx) && Drawn(s.messages, s.notes, s.frames, b)
    ensures exists c :: Drawn(l.messages, l.notes, l.frames, c) && c.x == b.x + dx && c.w == b.w
  {
    var c := MoveRect(b, dx);
    if k :| 0 <= k < |s.messages| && MessageBox(s.messages[k], b) {
      assert MessageBox(l.messages[k], c);
    } else if k :| 0 <= k < |s.notes| && s.notes[k].box == b {
      assert l.notes[k].box == c;
    } else {
      var k :| 0 <= k < |s.frames| && Shut(s.frames[k]) && s.frames[k].box == b;
      assert Shut(l.frames[k]) && l.frames[k].box == c;
    }
    assert Drawn(l.messages, l.notes, l.frames, c);
  }

  lemma SpansMoved(env: Env, s: State, l: SequenceLayout, lifelines: seq<SeqLifeline>, k: nat, cols: set<nat>, dx: real)
    requires env.Valid() && DrawnFrom(l, s, dx) && LifelinesOf(env, lifelines)
    requires l.lifelines == MovedLifelines(lifelines, dx) && k < |s.frames|
    requires FrameSpans(s.messages, s.notes, s.frames, s.frames[k], env.xs, cols)
    ensures |l.lifelines| == |env.actors| && k < |l.frames|
    ensures FrameSpans(l.messages, l.notes, l.frames, l.frames[k], XsOf(l.lifelines), cols)
  {
    hide Drawn, ConditionEnds;
    var f, g, xs := s.frames[k], l.frames[k], XsOf(l.lifelines);
    assert g == MoveFrame(f, dx) && forall c :: 0 <= c < |xs| ==> xs[c] == env.xs[c] + dx;
    if StartsAt(s.messages, s.notes, s.frames, f.box.x + 12.0) {
      var b :| Drawn(s.messages, s.notes, s.frames, b) && b.x == f.box.x + 12.0;
      DrawnMoves(s, l, b, dx);
    }
    if EndsAt(s.messages, s.notes, s.frames, f.box.x + f.box.w - 12.0) {
      var b :| Drawn(s.messages, s.notes, s.frames, b) && b.x + b.w == f.box.x + f.box.w - 12.0;
      DrawnMoves(s, l, b, dx);
    }
    ConditionMoves(f, dx);
  }

  lemma ConditionMoves(f: SeqFrame, dx: real)
    ensures |MoveFrame(f, dx).dividers| == |f.dividers|
    ensures forall e :: 0 <= e < |f.dividers| ==>
              (ConditionEnds(f.dividers[e], f.box.x + f.box.w) ==>
                 ConditionEnds(MoveFrame(f, dx).dividers[e], f.box.x + f.box.w + dx))
  {
  }
}
