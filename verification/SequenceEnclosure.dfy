// A frame is a box around exactly the rows written inside it.
module SequenceEnclosure {
  import opened Geometry
  import opened SequenceIR
  import opened SequenceLayout
  import opened SequenceRows
  import opened SequenceFrames
  import opened SequenceProof

  /** Something a row draws: how far it reaches across, the row's height, and the
      frames open when it was placed. */
  datatype Item = Item(box: Rect, frames: set<nat>)

  function OpenFrames(stack: seq<Open>): set<nat> {
    set d | 0 <= d < |stack| :: stack[d].f
  }

  /** framePad is the inset and this much more either side of a lifeline. */
  const LIFELINE_REACH := FRAME_PAD - NEST_INSET

  function LifelineBox(x: real, y: real, h: real): Rect {
    Rect(x - LIFELINE_REACH, y, 2.0 * LIFELINE_REACH, h)
  }

  /** What a row draws between its lifelines, over the row's height. */
  function RowItems(env: Env, s: State, r: Row): seq<Item>
    requires env.Valid() && s.Valid(env) && KnownRow(env.actors, r)
  {
    var h := PlaceRow(env, s, r).y - ROW_GAP - s.y;
    var open := OpenFrames(s.stack);
    if r.Message? then
      var m := PlaceMessage(env, s.y, r, s.stack != []);
      var i, j := Col(env.actors, r.from), Col(env.actors, r.to);
      [Item(LifelineBox(env.xs[i], s.y, h), open), Item(LifelineBox(env.xs[j], s.y, h), open)]
      + (if m.caption.Some? then [Item(m.caption.value.box.(y := s.y, h := h), open)] else [])
      + (if m.self then [Item(Rect(env.xs[i], s.y, SELF_W, h), open)] else [])
    else if r.Note? then
      var n := PlaceNote(env, s.y, r);
      var i, j := Col(env.actors, r.from), Col(env.actors, r.to);
      [Item(LifelineBox(env.xs[i], s.y, h), open), Item(LifelineBox(env.xs[j], s.y, h), open), Item(n.box, open)]
    else []
  }

  function AllItems(env: Env, y: real, rows: seq<Row>): seq<Item>
    requires env.Valid() && KnownEnds(env.actors, rows)
  {
    if rows == [] then []
    else
      var init := rows[..|rows| - 1];
      AllItems(env, y, init) + RowItems(env, PlaceRows(env, y, init), rows[|rows| - 1])
  }

  /** An open frame already reaches across r: through a box it holds or a
      lifeline it spans. */
  predicate Reaches(env: Env, open: Open, r: Rect) {
    || HeldBy(open.boxes, r)
    || exists c <- open.cols ::
         c < |env.xs| && env.xs[c] - LIFELINE_REACH <= r.x && r.x + r.w <= env.xs[c] + LIFELINE_REACH
  }

  /** Entry d is the innermost frame still open of those around an item. */
  predicate Innermost(stack: seq<Open>, d: nat, frames: set<nat>)
    requires d < |stack|
  {
    stack[d].f in frames && (d + 1 < |stack| ==> stack[d + 1].f !in frames)
  }

  /** How one frame stands to one item. */
  predicate Stands(f: SeqFrame, holds: bool, r: Rect) {
    if holds then f.box.y + NEST_INSET <= r.y && (Shut(f) ==> Contains(Inset(f.box, NEST_INSET), r))
    else (Shut(f) && Foot(f.box) <= r.y) || Foot(r) <= f.box.y
  }

  predicate ItemOk(env: Env, s: State, it: Item) {
    && Foot(it.box) + ROW_GAP <= s.y
    && (forall i <- it.frames :: i < |s.frames|)
    && (forall i :: 0 <= i < |s.frames| ==> Stands(s.frames[i], i in it.frames, it.box))
    && (forall d :: 0 <= d < |s.stack| && Innermost(s.stack, d, it.frames) ==> Reaches(env, s.stack[d], it.box))
  }

  // ---- items already placed ----

  lemma ReachesMore(env: Env, open: Open, more: Open, r: Rect)
    requires Reaches(env, open, r) && open.cols <= more.cols && (forall b <- open.boxes :: b in more.boxes)
    ensures Reaches(env, more, r)
  {
    if HeldBy(open.boxes, r) {
      var b :| b in open.boxes && b.x <= r.x && r.x + r.w <= b.x + b.w;
      assert b in more.boxes;
    } else {
      var c :| c in open.cols && c < |env.xs| && env.xs[c] - LIFELINE_REACH <= r.x
      && r.x + r.w <= env.xs[c] + LIFELINE_REACH;
      assert c in more.cols;
    }
  }

  /** A stack with the same frames, each holding no less. */
  predicate Widened(stack: seq<Open>, more: seq<Open>) {
    |more| == |stack|
    && forall d :: 0 <= d < |stack| ==> && more[d].f == stack[d].f && stack[d].cols <= more[d].cols
                                        && (forall b <- stack[d].boxes :: b in more[d].boxes)
  }

  lemma WidenedKeepsItem(env: Env, s: State, s': State, it: Item)
    requires ItemOk(env, s, it) && s.y <= s'.y && Widened(s.stack, s'.stack) && |s'.frames| == |s.frames|
    requires forall i :: 0 <= i < |s.frames| ==> s'.frames[i].box == s.frames[i].box
    ensures ItemOk(env, s', it)
  {
    forall i | 0 <= i < |s'.frames| ensures Stands(s'.frames[i], i in it.frames, it.box) {
      assert Stands(s.frames[i], i in it.frames, it.box);
    }
    forall d | 0 <= d < |s'.stack| && Innermost(s'.stack, d, it.frames) ensures Reaches(env, s'.stack[d], it.box) {
      assert Innermost(s.stack, d, it.frames);
      ReachesMore(env, s.stack[d], s'.stack[d], it.box);
    }
  }

  lemma OpenKeepsItem(env: Env, s: State, r: Row, it: Item)
    requires env.Valid() && s.Valid(env) && r.Frame? && ItemOk(env, s, it)
    ensures ItemOk(env, PlaceRow(env, s, r), it)
  {
    var s' := PlaceRow(env, s, r);
    forall i | 0 <= i < |s'.frames| ensures Stands(s'.frames[i], i in it.frames, it.box) {
      if i < |s.frames| {
        assert Stands(s.frames[i], i in it.frames, it.box);
      }
    }
    forall d | 0 <= d < |s'.stack| && Innermost(s'.stack, d, it.frames) ensures Reaches(env, s'.stack[d], it.box) {
      assert Innermost(s.stack, d, it.frames);
    }
  }

  /** A closed frame reaches framePad past every lifeline its rows stood on. */
  lemma ClosedSpans(env: Env, y: real, f: SeqFrame, open: Open, parent: Option<Open>, c: nat)
    requires env.Valid() && (forall c <- open.cols :: c < |env.xs|)
    requires parent.Some? ==> forall c <- parent.value.cols :: c < |env.xs|
    requires c in open.cols
    ensures var box := CloseFrame(env, y, f, open, parent).box;
            box.x <= env.xs[c] - FRAME_PAD && env.xs[c] + FRAME_PAD <= box.x + box.w
  {
    var spanned := FrameXs(env, open, parent);
    assert env.xs[c] in spanned;
    var k :| 0 <= k < |spanned| && spanned[k] == env.xs[c];
  }

  lemma ClosedSpansTop(env: Env, s: State, c: nat)
    requires env.Valid() && s.Valid(env) && s.stack != [] && c in s.stack[|s.stack| - 1].cols
    ensures c < |env.xs|
    ensures var box := PlaceRow(env, s, End).frames[s.stack[|s.stack| - 1].f].box;
            box.x <= env.xs[c] - FRAME_PAD && env.xs[c] + FRAME_PAD <= box.x + box.w
  {
    var open, rest := s.stack[|s.stack| - 1], s.stack[..|s.stack| - 1];
    ClosedSpans(env, s.y, s.frames[open.f], open, if rest == [] then None else Some(rest[|rest| - 1]), c);
  }

  /** What the innermost frame reached, it holds by the inset once closed. */
  lemma ClosedReaches(env: Env, s: State, r: Rect)
    requires env.Valid() && s.Valid(env) && s.stack != [] && FramesOk(s)
    requires Reaches(env, s.stack[|s.stack| - 1], r)
    ensures var box := PlaceRow(env, s, End).frames[s.stack[|s.stack| - 1].f].box;
            box.x + NEST_INSET <= r.x && r.x + r.w + NEST_INSET <= box.x + box.w
  {
    var open := s.stack[|s.stack| - 1];
    if HeldBy(open.boxes, r) {
      ClosedFrame(env, s);
      var b :| b in open.boxes && b.x <= r.x && r.x + r.w <= b.x + b.w;
    } else {
      var c :| c in open.cols && c < |env.xs| && env.xs[c] - LIFELINE_REACH <= r.x
      && r.x + r.w <= env.xs[c] + LIFELINE_REACH;
      ClosedSpansTop(env, s, c);
    }
  }

  lemma EndKeepsStands(env: Env, s: State, it: Item, i: nat)
    requires env.Valid() && s.Valid(env) && s.stack != [] && FramesOk(s) && ItemOk(env, s, it) && i < |s.frames|
    ensures Stands(PlaceRow(env, s, End).frames[i], i in it.frames, it.box)
  {
    var top := |s.stack| - 1;
    assert Stands(s.frames[i], i in it.frames, it.box);
    if i == s.stack[top].f {
      ClosedFrame(env, s);
      if i in it.frames {
        assert Innermost(s.stack, top, it.frames);
        ClosedReaches(env, s, it.box);
      }
    }
  }

  /** Once the innermost frame is popped into its parent, the parent reaches what
      it reached. */
  lemma PopReaches(env: Env, stack: seq<Open>, popped: seq<Open>, box: Rect, it: Item)
    requires stack != [] && Widened(stack[..|stack| - 1], popped)
    requires popped != [] ==> box in popped[|popped| - 1].boxes
    requires forall d :: 0 <= d < |stack| && Innermost(stack, d, it.frames) ==> Reaches(env, stack[d], it.box)
    requires stack[|stack| - 1].f in it.frames ==> box.x <= it.box.x && it.box.x + it.box.w <= box.x + box.w
    ensures forall d :: 0 <= d < |popped| && Innermost(popped, d, it.frames) ==> Reaches(env, popped[d], it.box)
  {
    var top := |stack| - 1;
    forall d | 0 <= d < |popped| && Innermost(popped, d, it.frames) ensures Reaches(env, popped[d], it.box) {
      if d == top - 1 && stack[top].f in it.frames {
        assert HeldBy(popped[d].boxes, it.box);
      } else {
        assert Innermost(stack, d, it.frames);
        ReachesMore(env, stack[d], popped[d], it.box);
      }
    }
  }

  lemma HoldWidens(stack: seq<Open>, cols: set<nat>, boxes: seq<Rect>)
    ensures Widened(stack, Hold(stack, cols, boxes))
    ensures stack != [] ==> forall b <- boxes :: b in Hold(stack, cols, boxes)[|stack| - 1].boxes
  {
  }

  lemma EndKeepsItem(env: Env, s: State, it: Item)
    requires env.Valid() && s.Valid(env) && s.stack != [] && FramesOk(s) && ItemOk(env, s, it)
    ensures ItemOk(env, PlaceRow(env, s, End), it)
  {
    hide PlaceRow, FramesOk, Reaches, Stands;
    var s' := PlaceRow(env, s, End);
    var top := |s.stack| - 1;
    var k := s.stack[top].f;
    ClosedFrame(env, s);
    EndShape(env, s);
    forall i | 0 <= i < |s'.frames| ensures Stands(s'.frames[i], i in it.frames, it.box) {
      EndKeepsStands(env, s, it, i);
    }
    EndKeepsReaches(env, s, it);
  }

  lemma EndKeepsReaches(env: Env, s: State, it: Item)
    requires env.Valid() && s.Valid(env) && s.stack != [] && FramesOk(s) && ItemOk(env, s, it)
    ensures var s' := PlaceRow(env, s, End);
            forall d :: 0 <= d < |s'.stack| && Innermost(s'.stack, d, it.frames) ==> Reaches(env, s'.stack[d], it.box)
  {
    var s' := PlaceRow(env, s, End);
    var top := |s.stack| - 1;
    var k := s.stack[top].f;
    EndShape(env, s);
    assert Widened(s.stack[..top], s'.stack) by {
      EndCloses(env, s);
      HoldWidens(s.stack[..top], s.stack[top].cols, [s'.frames[k].box]);
      hide PlaceRow, FramesOk, Reaches, Stands, CloseFrame, Hold;
    }
    hide PlaceRow, FramesOk, Reaches, Stands, Widened;
    if k in it.frames {
      assert Innermost(s.stack, top, it.frames);
      ClosedReaches(env, s, it.box);
    }
    PopReaches(env, s.stack, s'.stack, s'.frames[k].box, it);
  }

  /** Rows that open and close no frame. */
  lemma RowWidens(env: Env, s: State, r: Row)
    requires env.Valid() && s.Valid(env) && KnownRow(env.actors, r) && (r.Message? || r.Note? || r.Divider?)
    ensures var s' := PlaceRow(env, s, r);
            && Widened(s.stack, s'.stack) && |s'.frames| == |s.frames|
            && forall i :: 0 <= i < |s.frames| ==> s'.frames[i].box == s.frames[i].box
  {
  }

  lemma ItemKept(env: Env, s: State, r: Row, it: Item)
    requires env.Valid() && s.Valid(env) && KnownRow(env.actors, r) && FramesOk(s) && ItemOk(env, s, it)
    ensures ItemOk(env, PlaceRow(env, s, r), it)
  {
    RowTextBand(env, s, r);
    if r.Frame? {
      OpenKeepsItem(env, s, r, it);
    } else if !r.End? {
      RowWidens(env, s, r);
      WidenedKeepsItem(env, s, PlaceRow(env, s, r), it);
    } else if s.stack != [] {
      EndKeepsItem(env, s, it);
    }
  }

  // ---- items a row adds ----

  lemma OpenIffOnStack(s: State, i: nat)
    requires StackOk(s) && i < |s.frames|
    ensures i in OpenFrames(s.stack) <==> OnStack(s.stack, i)
    ensures i !in OpenFrames(s.stack) ==> Shut(s.frames[i])
  {
  }

  lemma NewItemStands(s: State, it: Item, i: nat)
    requires FramesOk(s) && it.frames == OpenFrames(s.stack) && it.box.y == s.y && i < |s.frames|
    ensures Stands(s.frames[i], i in it.frames, it.box)
  {
    assert FrameOk(s.frames[i], s.y);
    OpenIffOnStack(s, i);
    if i in it.frames {
      var d :| 0 <= d < |s.stack| && s.stack[d].f == i;
    }
  }

  /** An item placed now: above the next row, inside every open frame and none
      other, held by the innermost. */
  lemma NewItem(env: Env, s: State, s': State, it: Item)
    requires env.Valid() && FramesOk(s) && it.frames == OpenFrames(s.stack) && s'.frames == s.frames
             && |s'.stack| == |s.stack|
    requires forall d :: 0 <= d < |s.stack| ==> s'.stack[d].f == s.stack[d].f
    requires it.box.y == s.y && Foot(it.box) + ROW_GAP <= s'.y
    requires s.stack != [] ==> Reaches(env, s'.stack[|s.stack| - 1], it.box)
    ensures ItemOk(env, s', it)
  {
    hide Reaches, Stands, FramesOk;
    assert forall i <- it.frames :: i < |s.frames| by { OpenKnown(s); }
    forall i | 0 <= i < |s.frames| ensures Stands(s'.frames[i], i in it.frames, it.box) {
      NewItemStands(s, it, i);
    }
    hide OpenFrames;
    forall d | 0 <= d < |s'.stack| && Innermost(s'.stack, d, it.frames) ensures Reaches(env, s'.stack[d], it.box) {
      TopInnermost(s.stack, s'.stack, d);
    }
  }

  lemma TopInnermost(stack: seq<Open>, after: seq<Open>, d: nat)
    requires |after| == |stack| && (forall e :: 0 <= e < |stack| ==> after[e].f == stack[e].f)
    requires d < |after| && Innermost(after, d, OpenFrames(stack))
    ensures d + 1 == |stack|
  {
    assert forall e :: 0 <= e < |stack| ==> stack[e].f in OpenFrames(stack);
  }

  lemma OpenKnown(s: State)
    requires FramesOk(s)
    ensures forall i <- OpenFrames(s.stack) :: i < |s.frames|
  {
    hide FrameOk, PairOk, HeldOk, FloorsOk;
    forall i | i in OpenFrames(s.stack) ensures i < |s.frames| {
      var d :| 0 <= d < |s.stack| && s.stack[d].f == i;
    }
  }

  lemma HoldReaches(env: Env, stack: seq<Open>, cols: set<nat>, boxes: seq<Rect>, r: Rect)
    requires stack != []
    requires r in boxes || exists c <- cols ::
               c < |env.xs| && env.xs[c] - LIFELINE_REACH <= r.x && r.x + r.w <= env.xs[c] + LIFELINE_REACH
    ensures Reaches(env, Hold(stack, cols, boxes)[|stack| - 1], r)
  {
    var more := Hold(stack, cols, boxes)[|stack| - 1];
    if r in boxes {
      assert r in more.boxes;
    } else {
      var c :| c in cols && c < |env.xs| && env.xs[c] - LIFELINE_REACH <= r.x
      && r.x + r.w <= env.xs[c] + LIFELINE_REACH;
      assert c in more.cols;
    }
  }

  lemma ReachesBand(env: Env, open: Open, r: Rect, y: real, h: real)
    requires Reaches(env, open, r)
    ensures Reaches(env, open, r.(y := y, h := h))
  {
    if HeldBy(open.boxes, r) {
      var b :| b in open.boxes && b.x <= r.x && r.x + r.w <= b.x + b.w;
    }
  }

  /** The innermost open frame reaches everything a message draws. */
  lemma MessageItemsReached(env: Env, s: State, r: Row, it: Item)
    requires env.Valid() && s.Valid(env) && KnownRow(env.actors, r) && r.Message? && s.stack != []
    requires it in RowItems(env, s, r)
    ensures Reaches(env, PlaceRow(env, s, r).stack[|s.stack| - 1], it.box)
  {
    var m := PlaceMessage(env, s.y, r, true);
    var i, j := Col(env.actors, r.from), Col(env.actors, r.to);
    var boxes := MessageBoxes(env, m, i);
    var open := PlaceRow(env, s, r).stack[|s.stack| - 1];
    if m.caption.Some? && it.box == m.caption.value.box.(y := it.box.y, h := it.box.h) {
      HoldReaches(env, s.stack, {i, j}, boxes, m.caption.value.box);
      ReachesBand(env, open, m.caption.value.box, it.box.y, it.box.h);
    } else if m.self && it.box.x == env.xs[i] && it.box.w == SELF_W {
      HoldReaches(env, s.stack, {i, j}, boxes, Rect(env.xs[i], 0.0, SELF_W, 0.0));
      ReachesBand(env, open, Rect(env.xs[i], 0.0, SELF_W, 0.0), it.box.y, it.box.h);
    } else {
      HoldReaches(env, s.stack, {i, j}, boxes, it.box);
    }
  }

  lemma NoteItemsReached(env: Env, s: State, r: Row, it: Item)
    requires env.Valid() && s.Valid(env) && KnownRow(env.actors, r) && r.Note? && s.stack != []
    requires it in RowItems(env, s, r)
    ensures Reaches(env, PlaceRow(env, s, r).stack[|s.stack| - 1], it.box)
  {
    var n := PlaceNote(env, s.y, r);
    HoldReaches(env, s.stack, {Col(env.actors, r.from), Col(env.actors, r.to)}, [n.box], it.box);
  }

  lemma RowItemsOk(env: Env, s: State, r: Row, it: Item)
    requires env.Valid() && s.Valid(env) && KnownRow(env.actors, r) && FramesOk(s) && it in RowItems(env, s, r)
    ensures ItemOk(env, PlaceRow(env, s, r), it)
  {
    var s' := PlaceRow(env, s, r);
    if s.stack != [] {
      if r.Message? {
        MessageItemsReached(env, s, r, it);
      } else {
        NoteItemsReached(env, s, r, it);
      }
    }
    NewItem(env, s, s', it);
  }

  predicate ItemsOk(env: Env, s: State, items: seq<Item>) {
    forall k :: 0 <= k < |items| ==> ItemOk(env, s, items[k])
  }

  /** Every frame holds the rows written inside it, and stands clear of every other. */
  lemma {:induction false} AllItemsOk(env: Env, y: real, rows: seq<Row>)
    requires env.Valid() && KnownEnds(env.actors, rows)
    ensures FramesOk(PlaceRows(env, y, rows)) && ItemsOk(env, PlaceRows(env, y, rows), AllItems(env, y, rows))
  {
    if rows != [] {
      var init, last := rows[..|rows| - 1], rows[|rows| - 1];
      AllItemsOk(env, y, init);
      var s := PlaceRows(env, y, init);
      assert KnownRow(env.actors, last) by {
        assert last in rows;
      }
      FramesKept(env, s, last);
      var items := AllItems(env, y, rows);
      forall k | 0 <= k < |items| ensures ItemOk(env, PlaceRow(env, s, last), items[k]) {
        if k < |AllItems(env, y, init)| {
          ItemKept(env, s, last, items[k]);
        } else {
          RowItemsOk(env, s, last, items[k]);
        }
      }
    }
  }

  // ---- by row of the source ----

  /** The frames open after the rows, by the order they open in, outermost first. */
  function FrameStack(rows: seq<Row>): seq<nat> {
    if rows == [] then []
    else
      var init, last := rows[..|rows| - 1], rows[|rows| - 1];
      var stack := FrameStack(init);
      match last
      case Frame(_, _) => stack + [|FrameRows(init)|]
      case End => if stack == [] then [] else stack[..|stack| - 1]
      case _ => stack
  }

  predicate SameFrames(stack: seq<Open>, numbers: seq<nat>) {
    |numbers| == |stack| && forall d :: 0 <= d < |stack| ==> stack[d].f == numbers[d]
  }

  lemma StackStep(rows: seq<Row>, r: Row)
    ensures FrameRows(rows + [r]) == FrameRows(rows) + if r.Frame? then [r] else []
    ensures FrameStack(rows + [r])
            == if r.Frame? then FrameStack(rows) + [|FrameRows(rows)|]
               else if r.End? && FrameStack(rows) != [] then FrameStack(rows)[..|FrameStack(rows)| - 1]
               else FrameStack(rows)
  {
    assert (rows + [r])[..|rows|] == rows;
  }

  lemma NothingEnds(env: Env, s: State)
    requires env.Valid() && s.Valid(env) && s.stack == []
    ensures PlaceRow(env, s, End) == s
  {
  }

  lemma FrameOpens(env: Env, s: State, r: Row)
    requires env.Valid() && s.Valid(env) && r.Frame?
    ensures var s' := PlaceRow(env, s, r);
            && |s'.frames| == |s.frames| + 1 && |s'.stack| == |s.stack| + 1 && s'.stack[..|s.stack|] == s.stack
            && s'.stack[|s.stack|].f == |s.frames|
  {
  }

  lemma RowFrameStack(env: Env, s: State, rows: seq<Row>, r: Row)
    requires env.Valid() && s.Valid(env) && KnownRow(env.actors, r)
    requires |s.frames| == |FrameRows(rows)| && SameFrames(s.stack, FrameStack(rows))
    ensures |PlaceRow(env, s, r).frames| == |FrameRows(rows + [r])|
    ensures SameFrames(PlaceRow(env, s, r).stack, FrameStack(rows + [r]))
  {
    hide FrameStack, FrameRows, PlaceRow;
    StackStep(rows, r);
    if r.Message? || r.Note? || r.Divider? {
      RowWidens(env, s, r);
    } else if r.End? && s.stack != [] {
      EndShape(env, s);
    } else if r.End? {
      NothingEnds(env, s);
    } else {
      FrameOpens(env, s, r);
    }
  }

  lemma {:induction false} StackIsFrameStack(env: Env, y: real, rows: seq<Row>)
    requires env.Valid() && KnownEnds(env.actors, rows)
    ensures |PlaceRows(env, y, rows).frames| == |FrameRows(rows)|
    ensures SameFrames(PlaceRows(env, y, rows).stack, FrameStack(rows))
  {
    hide PlaceRow;
    if rows != [] {
      var init, last := rows[..|rows| - 1], rows[|rows| - 1];
      assert rows == init + [last] && last in rows;
      StackIsFrameStack(env, y, init);
      RowFrameStack(env, PlaceRows(env, y, init), init, last);
    }
  }

  lemma RowAppends(env: Env, s: State, r: Row)
    requires env.Valid() && s.Valid(env) && KnownRow(env.actors, r)
    ensures s.messages <= PlaceRow(env, s, r).messages && s.notes <= PlaceRow(env, s, r).notes
    ensures |s.frames| <= |PlaceRow(env, s, r).frames|
  {
  }

  lemma {:induction false} EarlierRowsStay(env: Env, y: real, rows: seq<Row>, p: nat)
    requires env.Valid() && KnownEnds(env.actors, rows) && p <= |rows|
    ensures KnownEnds(env.actors, rows[..p])
    ensures PlaceRows(env, y, rows[..p]).messages <= PlaceRows(env, y, rows).messages
    ensures PlaceRows(env, y, rows[..p]).notes <= PlaceRows(env, y, rows).notes
    ensures AllItems(env, y, rows[..p]) <= AllItems(env, y, rows)
  {
    if p == |rows| {
      assert rows[..p] == rows;
    } else {
      var init, last := rows[..|rows| - 1], rows[|rows| - 1];
      EarlierRowsStay(env, y, init, p);
      assert init[..p] == rows[..p];
      assert KnownRow(env.actors, last) by {
        assert last in rows;
      }
      RowAppends(env, PlaceRows(env, y, init), last);
    }
  }

  /** A message inside a frame: its ends framePad from the sides, all of it by the
      inset. */
  predicate MessageInside(f: SeqFrame, m: SeqMessage) {
    && (forall k :: 0 <= k < |m.points| ==>
          Contains(Inset(f.box, NEST_INSET), Rect(m.points[k].x, m.points[k].y, 0.0, 0.0)))
    && (m.points != [] ==> f.box.x + FRAME_PAD <= m.points[0].x && m.points[0].x + FRAME_PAD <= f.box.x + f.box.w)
    && (m.caption.Some? ==> Contains(Inset(f.box, NEST_INSET), m.caption.value.box))
  }

  predicate MessageBelow(m: SeqMessage, y: real) {
    (forall k :: 0 <= k < |m.points| ==> y <= m.points[k].y) && (m.caption.Some? ==> y <= m.caption.value.box.y)
  }

  predicate MessageAbove(m: SeqMessage, y: real) {
    (forall k :: 0 <= k < |m.points| ==> m.points[k].y <= y) && (m.caption.Some? ==> Foot(m.caption.value.box) <= y)
  }

  /** A message wholly above or wholly below a frame. */
  predicate MessageApart(f: SeqFrame, m: SeqMessage) {
    MessageBelow(m, Foot(f.box)) || MessageAbove(m, f.box.y)
  }

  predicate NoteApart(f: SeqFrame, n: SeqNote) {
    Foot(f.box) <= n.box.y || Foot(n.box) <= f.box.y
  }

  lemma ArrowStands(env: Env, s: State, r: Row, f: SeqFrame, holds: bool)
    requires env.Valid() && s.Valid(env) && KnownRow(env.actors, r) && r.Message? && Shut(f)
    requires Col(env.actors, r.from) != Col(env.actors, r.to)
    requires forall k :: 0 <= k < |RowItems(env, s, r)| ==> Stands(f, holds, RowItems(env, s, r)[k].box)
    ensures var m := PlaceMessage(env, s.y, r, s.stack != []);
            if holds then MessageInside(f, m) else MessageApart(f, m)
  {
    var items := RowItems(env, s, r);
    var m := PlaceMessage(env, s.y, r, s.stack != []);
    assert Stands(f, holds, items[0].box) && Stands(f, holds, items[1].box);
    if m.caption.Some? {
      assert Stands(f, holds, items[2].box);
    }
  }

  lemma LoopStands(env: Env, s: State, r: Row, f: SeqFrame, holds: bool)
    requires env.Valid() && s.Valid(env) && KnownRow(env.actors, r) && r.Message? && Shut(f)
    requires Col(env.actors, r.from) == Col(env.actors, r.to)
    requires forall k :: 0 <= k < |RowItems(env, s, r)| ==> Stands(f, holds, RowItems(env, s, r)[k].box)
    ensures var m := PlaceMessage(env, s.y, r, s.stack != []);
            if holds then MessageInside(f, m) else MessageApart(f, m)
  {
    var items := RowItems(env, s, r);
    var m := PlaceMessage(env, s.y, r, s.stack != []);
    assert Stands(f, holds, items[0].box);
    assert Stands(f, holds, items[|items| - 1].box);
    if m.caption.Some? {
      assert Stands(f, holds, items[2].box);
    }
  }

  /** A frame stands rightly to everything a row draws. */
  predicate AllStand(env: Env, s: State, r: Row, f: SeqFrame, holds: bool)
    requires env.Valid() && s.Valid(env) && KnownRow(env.actors, r)
  {
    forall k :: 0 <= k < |RowItems(env, s, r)| ==> Stands(f, holds, RowItems(env, s, r)[k].box)
  }

  /** What a frame standing rightly to a message row's items says of the message. */
  lemma MessageStands(env: Env, s: State, r: Row, f: SeqFrame, holds: bool)
    requires env.Valid() && s.Valid(env) && KnownRow(env.actors, r) && r.Message? && Shut(f)
    requires AllStand(env, s, r, f, holds)
    ensures var m := PlaceMessage(env, s.y, r, s.stack != []);
            if holds then MessageInside(f, m) else MessageApart(f, m)
  {
    if Col(env.actors, r.from) == Col(env.actors, r.to) {
      LoopStands(env, s, r, f, holds);
    } else {
      ArrowStands(env, s, r, f, holds);
    }
  }

  lemma NoteStands(env: Env, s: State, r: Row, f: SeqFrame, holds: bool)
    requires env.Valid() && s.Valid(env) && KnownRow(env.actors, r) && r.Note? && Shut(f)
    requires AllStand(env, s, r, f, holds)
    ensures var n := PlaceNote(env, s.y, r);
            if holds then Contains(Inset(f.box, NEST_INSET), n.box) else NoteApart(f, n)
  {
    assert Stands(f, holds, RowItems(env, s, r)[2].box);
  }

  lemma AllItemsMore(env: Env, y: real, rows: seq<Row>)
    requires env.Valid() && KnownEnds(env.actors, rows) && rows != []
    ensures var init, last := rows[..|rows| - 1], rows[|rows| - 1];
            && KnownEnds(env.actors, init) && KnownRow(env.actors, last)
            && AllItems(env, y, rows) == AllItems(env, y, init) + RowItems(env, PlaceRows(env, y, init), last)
  {
    hide PlaceRow, PlaceRows, RowItems;
  }

  lemma ItemOfRow(env: Env, y: real, rows: seq<Row>, p: nat, k: nat) returns (at: nat)
    requires env.Valid() && KnownEnds(env.actors, rows) && p < |rows| && KnownEnds(env.actors, rows[..p])
    requires KnownRow(env.actors, rows[p])
    requires k < |RowItems(env, PlaceRows(env, y, rows[..p]), rows[p])|
    ensures at < |AllItems(env, y, rows)|
            && AllItems(env, y, rows)[at] == RowItems(env, PlaceRows(env, y, rows[..p]), rows[p])[k]
  {
    hide PlaceRow, PlaceRows, RowItems;
    EarlierRowsStay(env, y, rows, p + 1);
    assert rows[..p + 1][..p] == rows[..p];
    at := |AllItems(env, y, rows[..p])| + k;
    assert AllItems(env, y, rows[..p + 1])
           == AllItems(env, y, rows[..p]) + RowItems(env, PlaceRows(env, y, rows[..p]), rows[p]) by {
      AllItemsMore(env, y, rows[..p + 1]);
    }
    hide AllItems;
  }

  lemma ItemFrames(env: Env, s: State, r: Row, k: nat)
    requires env.Valid() && s.Valid(env) && KnownRow(env.actors, r) && k < |RowItems(env, s, r)|
    ensures RowItems(env, s, r)[k].frames == OpenFrames(s.stack)
  {
  }

  lemma OpenByNumber(s: State, numbers: seq<nat>, f: nat)
    requires SameFrames(s.stack, numbers)
    ensures f in OpenFrames(s.stack) <==> f in numbers
  {
    if f in numbers {
      var d :| 0 <= d < |numbers| && numbers[d] == f;
      assert s.stack[d].f == f;
    }
  }

  /** How frame number f of the final drawing stands to the items of row p. */
  lemma RowStands(env: Env, y: real, rows: seq<Row>, p: nat, f: nat, k: nat)
    requires env.Valid() && KnownEnds(env.actors, rows) && p < |rows| && KnownEnds(env.actors, rows[..p])
    requires KnownRow(env.actors, rows[p]) && f < |PlaceRows(env, y, rows).frames|
    requires k < |RowItems(env, PlaceRows(env, y, rows[..p]), rows[p])|
    ensures Stands(PlaceRows(env, y, rows).frames[f], f in FrameStack(rows[..p]),
                   RowItems(env, PlaceRows(env, y, rows[..p]), rows[p])[k].box)
  {
    hide PlaceRow, PlaceRows, AllItems, RowItems, FrameStack, FramesOk, Stands;
    var s := PlaceRows(env, y, rows[..p]);
    AllItemsOk(env, y, rows);
    var at := ItemOfRow(env, y, rows, p, k);
    assert ItemOk(env, PlaceRows(env, y, rows), AllItems(env, y, rows)[at]);
    StackIsFrameStack(env, y, rows[..p]);
    OpenByNumber(s, FrameStack(rows[..p]), f);
    ItemFrames(env, s, rows[p], k);
  }
}
