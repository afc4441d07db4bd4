// A frame's dividers part its rows as written: each says its condition, inside its frame,
// below every row written before it and above every row written after
// (ui/src/diagramSequence.ts).
module SequenceDividers {
  import opened Geometry
  import opened DiagramTheme
  import opened SequenceIR
  import opened SequenceLayout
  import opened SequenceRows
  import opened SequenceFrames
  import opened SequenceProof
  import opened SequenceEnclosure
  import opened SequenceCanvas
  import opened SequenceTheorem

  // ---- which dividers a frame has ----

  /** The dividers written directly inside frame number f, in order. */
  function DividersOf(rows: seq<Row>, f: nat): (r: seq<Row>)
    ensures forall d <- r :: d.Divider?
  {
    if rows == [] then []
    else
      var init, last := rows[..|rows| - 1], rows[|rows| - 1];
      DividersOf(init, f) + if last.Divider? && Innermost(init, f) then [last] else []
  }

  /** Frame number f is the innermost one open after the rows. */
  predicate Innermost(rows: seq<Row>, f: nat) {
    var stack := FrameStack(rows);
    stack != [] && stack[|stack| - 1] == f
  }

  lemma {:induction false} OpenAreWritten(rows: seq<Row>)
    ensures forall d :: 0 <= d < |FrameStack(rows)| ==> FrameStack(rows)[d] < |FrameRows(rows)|
  {
    if rows != [] {
      OpenAreWritten(rows[..|rows| - 1]);
    }
  }

  lemma {:induction false} NoneYet(rows: seq<Row>, f: nat)
    requires f >= |FrameRows(rows)|
    ensures DividersOf(rows, f) == []
  {
    if rows != [] {
      OpenAreWritten(rows[..|rows| - 1]);
      NoneYet(rows[..|rows| - 1], f);
    }
  }

  /** Inside a balanced diagram a divider stands in an open frame. */
  lemma {:induction false} StackIsNesting(rows: seq<Row>)
    requires Nesting(rows).Some?
    ensures |FrameStack(rows)| == Nesting(rows).value
  {
    if rows != [] {
      StackIsNesting(rows[..|rows| - 1]);
    }
  }

  lemma {:induction false} NestingPrefix(rows: seq<Row>, q: nat)
    requires Nesting(rows).Some? && q <= |rows|
    ensures Nesting(rows[..q]).Some?
  {
    if q < |rows| {
      NestingPrefix(rows[..|rows| - 1], q);
      assert rows[..|rows| - 1][..q] == rows[..q];
    } else {
      assert rows[..q] == rows;
    }
  }

  lemma DividerInside(rows: seq<Row>, q: nat)
    requires Nesting(rows).Some? && q < |rows| && rows[q].Divider?
    ensures FrameStack(rows[..q]) != []
  {
    NestingPrefix(rows, q);
    NestingPrefix(rows, q + 1);
    assert rows[..q + 1][..q] == rows[..q];
    StackIsNesting(rows[..q]);
  }

  // ---- what a row leaves of them ----

  /** A divider that has not moved up or down and says the same. */
  predicate SameDivider(d: FrameDivider, g: FrameDivider) {
    && d.y == g.y && (d.caption.Some? <==> g.caption.Some?)
    && (d.caption.Some? ==> d.caption.value.lines == g.caption.value.lines)
  }

  predicate DividersStay(f: SeqFrame, g: SeqFrame) {
    |f.dividers| <= |g.dividers| && forall e :: 0 <= e < |f.dividers| ==> SameDivider(f.dividers[e], g.dividers[e])
  }

  predicate Later(s: State, t: State) {
    && s.y <= t.y && |s.frames| <= |t.frames|
    && forall f :: 0 <= f < |s.frames| ==> DividersStay(s.frames[f], t.frames[f])
  }

  lemma RowLater(env: Env, s: State, r: Row)
    requires env.Valid() && s.Valid(env) && KnownRow(env.actors, r) && FramesOk(s)
    ensures Later(s, PlaceRow(env, s, r))
  {
    hide HeldOk, PairOk, FloorsOk;
    if r.Divider? && s.stack != [] {
      DividerLater(env, s, r);
    } else if r.End? && s.stack != [] {
      EndLater(env, s);
    } else if r.Frame? {
      assert PlaceRow(env, s, r) == PutFrame(env, s, r);
      hide PlaceRow;
    } else {
      RowTextBand(env, s, r);
      hide PlaceMessage, PlaceNote, Hold, BelowMessage;
    }
  }

  lemma DividerLater(env: Env, s: State, r: Row)
    requires env.Valid() && s.Valid(env) && FramesOk(s) && r.Divider? && s.stack != []
    ensures Later(s, PlaceRow(env, s, r))
  {
    hide FramesOk, FrameOk, ClearBelow;
    DividerKeepsFrame(env, s, r);
  }

  lemma EndLater(env: Env, s: State)
    requires env.Valid() && s.Valid(env) && s.stack != []
    ensures Later(s, PlaceRow(env, s, End))
    ensures PlaceRow(env, s, End).y == s.y + 15.0
  {
    var k := s.stack[|s.stack| - 1].f;
    hide FrameXs, BoxesLeft, BoxesRight, DividersRight, Hold;
  }

  lemma {:induction false} RowsLater(env: Env, y: real, rows: seq<Row>, p: nat)
    requires env.Valid() && KnownEnds(env.actors, rows) && p <= |rows|
    ensures KnownEnds(env.actors, rows[..p])
    ensures FramesOk(PlaceRows(env, y, rows)) && Later(PlaceRows(env, y, rows[..p]), PlaceRows(env, y, rows))
  {
    hide PlaceRow, FramesOk, Later;
    if rows == [] {
      assert FramesOk(State(y, [], [], [], [])) by { NoFramesOk(y); }
      assert rows[..p] == rows;
      StaysLater(PlaceRows(env, y, rows));
    } else {
      var init, last := rows[..|rows| - 1], rows[|rows| - 1];
      assert last in rows;
      var k := if p == |rows| then p - 1 else p;
      RowsLater(env, y, init, k);
      assert init[..k] == rows[..k];
      FramesKept(env, PlaceRows(env, y, init), last);
      RowLater(env, PlaceRows(env, y, init), last);
      if p == |rows| {
        assert rows[..p] == rows;
        StaysLater(PlaceRows(env, y, rows));
      } else {
        LaterYet(PlaceRows(env, y, rows[..p]), PlaceRows(env, y, init), PlaceRows(env, y, rows));
      }
    }
  }

  lemma StaysLater(s: State)
    ensures Later(s, s)
  {
  }

  lemma LaterYet(a: State, b: State, c: State)
    requires Later(a, b) && Later(b, c)
    ensures Later(a, c)
  {
    forall f | 0 <= f < |a.frames| ensures DividersStay(a.frames[f], c.frames[f]) {
      assert DividersStay(a.frames[f], b.frames[f]) && DividersStay(b.frames[f], c.frames[f]);
      forall e | 0 <= e < |a.frames[f].dividers| ensures SameDivider(a.frames[f].dividers[e], c.frames[f].dividers[e]) {
        assert SameDivider(b.frames[f].dividers[e], c.frames[f].dividers[e]);
      }
    }
  }

  // ---- every divider written is drawn ----

  predicate AsMany(s: State, rows: seq<Row>) {
    |s.frames| == |FrameRows(rows)| && forall f :: 0 <= f < |s.frames| ==>
      |s.frames[f].dividers| == |DividersOf(rows, f)|
  }

  lemma {:induction false} DividersCounted(env: Env, y: real, rows: seq<Row>)
    requires env.Valid() && KnownEnds(env.actors, rows)
    ensures AsMany(PlaceRows(env, y, rows), rows)
  {
    hide PlaceRow, FrameStack, AsMany;
    if rows == [] {
      assert AsMany(PlaceRows(env, y, rows), rows) by { NoneCounted(y); }
    } else {
      var init, last := rows[..|rows| - 1], rows[|rows| - 1];
      assert last in rows;
      DividersCounted(env, y, init);
      StackIsFrameStack(env, y, init);
      StackIsFrameStack(env, y, rows);
      RowCounted(env, PlaceRows(env, y, init), rows);
    }
  }

  lemma NoneCounted(y: real)
    ensures AsMany(State(y, [], [], [], []), [])
  {
  }

  /** What a row adds to the frames' dividers. */
  lemma RowDivides(env: Env, s: State, r: Row)
    requires env.Valid() && s.Valid(env) && KnownRow(env.actors, r)
    ensures var t := PlaceRow(env, s, r);
            && (r.Frame? ==> |t.frames| == |s.frames| + 1 && t.frames[|s.frames|].dividers == [])
            && (!r.Frame? ==> |t.frames| == |s.frames|)
            && forall f :: 0 <= f < |s.frames| ==>
                 |t.frames[f].dividers| == |s.frames[f].dividers|
                                         + if r.Divider? && s.stack != [] && s.stack[|s.stack| - 1].f == f then 1 else 0
  {
    hide PlaceMessage, PlaceNote, Hold, BelowMessage, FrameXs, BoxesLeft, BoxesRight, DividersRight, PlaceDivider;
  }

  lemma RowCounted(env: Env, s: State, rows: seq<Row>)
    requires env.Valid() && s.Valid(env) && rows != [] && KnownRow(env.actors, rows[|rows| - 1])
    requires AsMany(s, rows[..|rows| - 1]) && SameFrames(s.stack, FrameStack(rows[..|rows| - 1]))
    requires |PlaceRow(env, s, rows[|rows| - 1]).frames| == |FrameRows(rows)|
    ensures AsMany(PlaceRow(env, s, rows[|rows| - 1]), rows)
  {
    hide PlaceRow, FrameStack;
    var init, last := rows[..|rows| - 1], rows[|rows| - 1];
    RowDivides(env, s, last);
    var t := PlaceRow(env, s, last);
    forall f | 0 <= f < |t.frames| ensures |t.frames[f].dividers| == |DividersOf(rows, f)| {
      if f == |s.frames| {
        NoneYet(init, f);
      } else {
        assert |s.frames[f].dividers| == |DividersOf(init, f)|;
        InnermostIs(s, init, f);
      }
    }
  }

  lemma InnermostIs(s: State, rows: seq<Row>, f: nat)
    requires SameFrames(s.stack, FrameStack(rows))
    ensures Innermost(rows, f) <==> s.stack != [] && s.stack[|s.stack| - 1].f == f
  {
    hide FrameStack;
  }

  // ---- where it stands ----

  /** A divider says what was written: nothing, or its condition wrapped. */
  predicate Says(adv: Advance, d: FrameDivider, r: Row)
    requires r.Divider?
  {
    if r.text == "" then d.caption.None?
    else d.caption.Some? && d.caption.value.lines == Wrapped(adv, r.text, COND_MAX, RAMP_LABEL, Mono)
  }

  /** The divider a row puts: in the gap above it, and clear of the row after. */
  lemma RowPutsDivider(env: Env, s: State, r: Row)
    requires env.Valid() && s.Valid(env) && FramesOk(s) && r.Divider? && s.stack != []
    ensures var t, k := PlaceRow(env, s, r), s.stack[|s.stack| - 1].f;
            && |t.frames[k].dividers| == |s.frames[k].dividers| + 1
            && var d := t.frames[k].dividers[|s.frames[k].dividers|];
               && Says(env.fonts.adv, d, r) && s.y - ROW_GAP / 2.0 <= d.y && d.y + 12.0 <= t.y
  {
    hide FramesOk, FrameOk, ClearBelow;
    DividerKeepsFrame(env, s, r);
  }

  /** Row q's divider, as the finished rows hold it. */
  lemma DividerAt(env: Env, y: real, rows: seq<Row>, q: nat) returns (f: nat, e: nat)
    requires env.Valid() && KnownEnds(env.actors, rows) && q < |rows| && KnownEnds(env.actors, rows[..q])
    requires rows[q].Divider? && FrameStack(rows[..q]) != []
    ensures Innermost(rows[..q], f) && e == |DividersOf(rows[..q], f)|
    ensures var s, t := PlaceRows(env, y, rows[..q]), PlaceRows(env, y, rows);
            && f < |t.frames| && e < |t.frames[f].dividers|
            && var d := t.frames[f].dividers[e];
               && Says(env.fonts.adv, d, rows[q]) && s.y - ROW_GAP / 2.0 <= d.y
               && forall p :: q < p <= |rows| ==>
                    KnownEnds(env.actors, rows[..p]) && d.y + 12.0 <= PlaceRows(env, y, rows[..p]).y
  {
    hide PlaceRow, FrameStack, DividersOf, Innermost, FramesOk, Says;
    var before, upTo := rows[..q], rows[..q + 1];
    assert upTo[..q] == before && upTo[q] == rows[q];
    var s := PlaceRows(env, y, before);
    StackIsFrameStack(env, y, before);
    f := s.stack[|s.stack| - 1].f;
    InnermostIs(s, before, f);
    e := |s.frames[f].dividers|;
    DividersCounted(env, y, before);
    RowsLater(env, y, before, q);
    RowsLater(env, y, rows, q + 1);
    RowPutsDivider(env, s, rows[q]);
    assert PlaceRows(env, y, upTo) == PlaceRow(env, s, rows[q]);
    RowsLater(env, y, upTo, q);
    var t := PlaceRows(env, y, rows);
    assert DividersStay(PlaceRows(env, y, upTo).frames[f], t.frames[f]);
    SaysSame(env.fonts.adv, PlaceRows(env, y, upTo).frames[f].dividers[e], t.frames[f].dividers[e], rows[q]);
    forall p | q < p <= |rows|
      ensures KnownEnds(env.actors, rows[..p]) && t.frames[f].dividers[e].y + 12.0 <= PlaceRows(env, y, rows[..p]).y
    {
      RowsLater(env, y, rows, p);
      RowsLater(env, y, rows[..p], q + 1);
      assert rows[..p][..q + 1] == upTo;
    }
  }

  lemma SaysSame(adv: Advance, d: FrameDivider, g: FrameDivider, r: Row)
    requires r.Divider? && SameDivider(d, g) && Says(adv, d, r)
    ensures Says(adv, g, r)
  {
  }

  /** A message stands below where its row starts and a gap above where the next does. */
  lemma MessageBand(env: Env, s: State, r: Row)
    requires env.Valid() && s.Valid(env) && r.Message? && KnownRow(env.actors, r)
    ensures var m := PlaceMessage(env, s.y, r, s.stack != []);
            MessageBelow(m, s.y) && MessageAbove(m, PlaceRow(env, s, r).y - ROW_GAP)
  {
    hide Hold;
  }

  lemma NoteBand(env: Env, s: State, r: Row)
    requires env.Valid() && s.Valid(env) && r.Note? && KnownRow(env.actors, r)
    ensures var n := PlaceNote(env, s.y, r);
            s.y <= n.box.y && Foot(n.box) <= PlaceRow(env, s, r).y - ROW_GAP
  {
    hide Hold;
  }

  /** A message drawn for a row written before a divider is above it, for one written
      after, below; a note likewise. */
  predicate Parted(messages: seq<SeqMessage>, notes: seq<SeqNote>, rows: seq<Row>, p: nat, q: nat, y: real)
    requires p < |rows|
  {
    var r, i, j := rows[p], |MessageRows(rows[..p])|, |NoteRows(rows[..p])|;
    && (r.Message? ==> i < |messages| && if p < q then MessageAbove(messages[i], y) else MessageBelow(messages[i], y))
    && (r.Note? ==> j < |notes| && if p < q then Foot(notes[j].box) <= y else y <= notes[j].box.y)
  }

  lemma PlacedParted(env: Env, y: real, rows: seq<Row>, p: nat, q: nat, d: real)
    requires env.Valid() && KnownEnds(env.actors, rows) && p < |rows| && q < |rows| && p != q
    requires KnownEnds(env.actors, rows[..p]) && KnownEnds(env.actors, rows[..p + 1])
             && KnownEnds(env.actors, rows[..q])
    requires KnownRow(env.actors, rows[p])
    requires PlaceRows(env, y, rows[..q]).y - ROW_GAP / 2.0 <= d
    requires forall k :: q < k <= |rows| ==> KnownEnds(env.actors, rows[..k]) && d <= PlaceRows(env, y, rows[..k]).y
    ensures Parted(PlaceRows(env, y, rows).messages, PlaceRows(env, y, rows).notes, rows, p, q, d)
  {
    hide PlaceRow, MessageRows, NoteRows, FramesOk;
    var sp, r := PlaceRows(env, y, rows[..p]), rows[p];
    PlacedAt(env, y, rows, p);
    assert rows[..p + 1][..p] == rows[..p] && rows[..p + 1][p] == r;
    assert PlaceRows(env, y, rows[..p + 1]) == PlaceRow(env, sp, r);
    if p < q {
      RowsLater(env, y, rows[..q], p + 1);
      assert rows[..q][..p + 1] == rows[..p + 1];
      assert PlaceRow(env, sp, r).y <= PlaceRows(env, y, rows[..q]).y;
    } else {
      assert d <= sp.y;
    }
    if r.Message? {
      MessageBand(env, sp, r);
    } else if r.Note? {
      NoteBand(env, sp, r);
    }
  }

  // ---- inside its frame ----

  /** Dividers of a closed frame lie below its title and above its foot. */
  predicate DividersInside(f: SeqFrame) {
    Shut(f) ==> forall e :: 0 <= e < |f.dividers| ==> f.box.y < f.dividers[e].y < Foot(f.box)
  }

  predicate AllInside(s: State) {
    forall f :: 0 <= f < |s.frames| ==> DividersInside(s.frames[f])
  }

  lemma ClosedInside(env: Env, y: real, f: SeqFrame, open: Open, parent: Option<Open>)
    requires env.Valid() && (forall c <- open.cols :: c < |env.xs|)
    requires parent.Some? ==> forall c <- parent.value.cols :: c < |env.xs|
    requires FrameOk(f, y)
    ensures DividersInside(CloseFrame(env, y, f, open, parent))
  {
    hide FrameXs, BoxesLeft, BoxesRight, DividersRight;
    forall e | 0 <= e < |f.dividers|
      ensures var g := CloseFrame(env, y, f, open, parent); g.box.y < g.dividers[e].y < Foot(g.box)
    {
      assert DividerOk(f.dividers[e], y) && ClearBelow(f, e, f.dividers[e].y);
    }
  }

  lemma CloseChanges(env: Env, s: State, f: SeqFrame)
    requires env.Valid() && s.Valid(env) && s.stack != []
    requires var open, rest := s.stack[|s.stack| - 1], s.stack[..|s.stack| - 1];
             f == CloseFrame(env, s.y, s.frames[open.f], open, if rest == [] then None else Some(rest[|rest| - 1]))
    ensures PlaceRow(env, s, End).frames == s.frames[s.stack[|s.stack| - 1].f := f]
  {
    hide CloseFrame, Hold;
  }

  lemma FrameOkOf(s: State, f: nat)
    requires FramesOk(s) && f < |s.frames|
    ensures FrameOk(s.frames[f], s.y)
  {
    hide FrameOk, PairOk, HeldOk, FloorsOk;
  }

  lemma CloseInside(env: Env, s: State)
    requires env.Valid() && s.Valid(env) && s.stack != [] && FramesOk(s) && AllInside(s)
    ensures AllInside(PlaceRow(env, s, End))
  {
    hide PlaceRow, CloseFrame, FramesOk, FrameOk, DividersInside;
    var open, rest := s.stack[|s.stack| - 1], s.stack[..|s.stack| - 1];
    var parent := if rest == [] then None else Some(rest[|rest| - 1]);
    FrameOkOf(s, open.f);
    ClosedInside(env, s.y, s.frames[open.f], open, parent);
    CloseChanges(env, s, CloseFrame(env, s.y, s.frames[open.f], open, parent));
  }

  lemma RowInside(env: Env, s: State, r: Row)
    requires env.Valid() && s.Valid(env) && KnownRow(env.actors, r) && FramesOk(s) && AllInside(s)
    ensures AllInside(PlaceRow(env, s, r))
  {
    if r.End? && s.stack != [] {
      CloseInside(env, s);
    } else {
      hide PairOk, HeldOk, FloorsOk, PlaceMessage, PlaceNote, Hold, BelowMessage, PlaceDivider;
      if r.Divider? && s.stack != [] {
        assert !Shut(s.frames[s.stack[|s.stack| - 1].f]);
      }
    }
  }

  lemma {:induction false} RowsInside(env: Env, y: real, rows: seq<Row>)
    requires env.Valid() && KnownEnds(env.actors, rows)
    ensures AllInside(PlaceRows(env, y, rows))
  {
    hide PlaceRow, FramesOk;
    if rows != [] {
      var init, last := rows[..|rows| - 1], rows[|rows| - 1];
      assert last in rows;
      RowsInside(env, y, init);
      RowsLater(env, y, init, 0);
      RowInside(env, PlaceRows(env, y, init), last);
    }
  }

  // ---- the drawing ----

  /** Every divider written in a frame, and no other, is drawn in it. */
  lemma BetweenCounts(env: Env, rows: seq<Row>, f: nat)
    requires Ready(env, rows) && f < |FrameRows(rows)|
    ensures var l := LayoutBetween(env, rows); f < |l.frames| && |l.frames[f].dividers| == |DividersOf(rows, f)|
  {
    hide LayoutBetween, PlaceRow, PlaceRows, FrameRows, Ready, Placed;
    ReadyRows(env, rows);
    DividersCounted(env, TopOf(env) + 24.0, rows);
    var dx := BetweenShape(env, rows);
  }

  lemma ReadyRows(env: Env, rows: seq<Row>)
    requires Ready(env, rows)
    ensures env.Valid() && KnownEnds(env.actors, rows) && Nesting(rows) == Some(0)
    ensures Placed(env, rows) == PlaceRows(env, TopOf(env) + 24.0, rows)
  {
    hide PlaceRows, TopOf, HasRoom;
  }

  /** Divider q of the source: what it says, where in its frame, and how it parts row p. */
  ghost predicate DividerDrawn(adv: Advance, l: SequenceLayout, rows: seq<Row>, p: nat, q: nat, f: nat, e: nat)
    requires p < |rows| && q < |rows| && rows[q].Divider?
  {
    && Innermost(rows[..q], f) && e == |DividersOf(rows[..q], f)|
    && f < |l.frames| && e < |l.frames[f].dividers|
    && var b, d := l.frames[f].box, l.frames[f].dividers[e];
       && Says(adv, d, rows[q]) && b.y < d.y < Foot(b) && Parted(l.messages, l.notes, rows, p, q, d.y)
  }

  lemma BetweenParts(env: Env, rows: seq<Row>, p: nat, q: nat) returns (f: nat, e: nat)
    requires Ready(env, rows) && p < |rows| && q < |rows| && p != q && rows[q].Divider?
    ensures DividerDrawn(env.fonts.adv, LayoutBetween(env, rows), rows, p, q, f, e)
  {
    hide LayoutBetween, PlaceRow, PlaceRows, FrameStack, Ready, Placed, DividersOf, Innermost, Says, Parted;
    hide TopOf, Nesting, FrameRows;
    ReadyRows(env, rows);
    ReadyRow(env, rows, p);
    ReadyRow(env, rows, q);
    var y := TopOf(env) + 24.0;
    DividerInside(rows, q);
    f, e := DividerAt(env, y, rows, q);
    var s := PlaceRows(env, y, rows);
    var d := s.frames[f].dividers[e];
    assert KnownEnds(env.actors, rows[..p + 1]) by { RowsLater(env, y, rows, p + 1); }
    PlacedParted(env, y, rows, p, q, d.y);
    DividersCounted(env, y, rows);
    PlacedShut(env, rows, f);
    RowsInside(env, y, rows);
    assert DividersInside(s.frames[f]);
    var dx := BetweenShape(env, rows);
    MovedDivider(env.fonts.adv, s.frames[f], e, rows[q], dx);
    MovedParted(s, LayoutBetween(env, rows), rows, p, q, d.y, dx);
  }

  lemma MovedDivider(adv: Advance, f: SeqFrame, e: nat, r: Row, dx: real)
    requires e < |f.dividers| && r.Divider? && Says(adv, f.dividers[e], r)
    ensures var g := MoveFrame(f, dx);
            && |g.dividers| == |f.dividers| && g.dividers[e].y == f.dividers[e].y && Says(adv, g.dividers[e], r)
            && g.box.y == f.box.y && g.box.h == f.box.h
  {
  }

  lemma MovedParted(s: State, l: SequenceLayout, rows: seq<Row>, p: nat, q: nat, y: real, dx: real)
    requires p < |rows| && Parted(s.messages, s.notes, rows, p, q, y) && DrawnFrom(l, s, dx)
    ensures Parted(l.messages, l.notes, rows, p, q, y)
  {
    hide MessageRows, NoteRows;
  }

  /** In every diagram a divider is drawn as its frame's next one, says its condition, and
      parts the rows: those written before it are above it, those after, below. */
  lemma DividersPart(fonts: Fonts, ir: SequenceIR, p: nat, q: nat) returns (f: nat, e: nat)
    requires WellFormed(ir) && p < |ir.rows| && q < |ir.rows| && p != q && ir.rows[q].Divider?
    ensures DividerDrawn(fonts.adv, Layout(fonts, ir), ir.rows, p, q, f, e)
  {
    hide LayoutBetween, DividerDrawn, Lifelines;
    LifelinesRoomy(fonts, ir);
    f, e := BetweenParts(EnvOf(fonts, ir), ir.rows, p, q);
  }

  /** A frame has exactly the dividers written directly inside it. */
  lemma DividersAllDrawn(fonts: Fonts, ir: SequenceIR, f: nat)
    requires WellFormed(ir) && f < |FrameRows(ir.rows)|
    ensures var l := Layout(fonts, ir); f < |l.frames| && |l.frames[f].dividers| == |DividersOf(ir.rows, f)|
  {
    hide LayoutBetween, Lifelines, FrameRows;
    LifelinesRoomy(fonts, ir);
    BetweenCounts(EnvOf(fonts, ir), ir.rows, f);
  }
}
