// A placed drawing moved onto its canvas: nothing the check measures changes, and
// everything drawn is on it.
module SequenceCanvas {
  import opened Geometry
  import opened SequenceLayout
  import opened SequenceCheck
  import opened SequenceRows
  import opened SequenceFrames

  // ---- moving a drawing across changes nothing the check measures ----

  lemma ClearMoves(r: Rect, a: Point, b: Point, least: real, dx: real)
    requires Clear(r, a, b, least)
    ensures Clear(MoveRect(r, dx), Point(a.x + dx, a.y), Point(b.x + dx, b.y), least)
  {
    assert GapX(MoveRect(r, dx), Point(a.x + dx, a.y), Point(b.x + dx, b.y)) == GapX(r, a, b);
    assert GapY(MoveRect(r, dx), Point(a.x + dx, a.y), Point(b.x + dx, b.y)) == GapY(r, a, b);
  }

  function MovedLifelines(lifelines: seq<SeqLifeline>, dx: real): (r: seq<SeqLifeline>)
    ensures |r| == |lifelines| && forall i :: 0 <= i < |r| ==> r[i] == MoveLifeline(lifelines[i], dx)
  {
    MapSeq((l: SeqLifeline) => MoveLifeline(l, dx), lifelines)
  }

  lemma LifelinesClearMoves(r: Rect, own: string, lifelines: seq<SeqLifeline>, dx: real)
    requires ClearOfLifelines(r, own, lifelines)
    ensures ClearOfLifelines(MoveRect(r, dx), own, MovedLifelines(lifelines, dx))
  {
    var moved := MovedLifelines(lifelines, dx);
    forall i | 0 <= i < |moved| && moved[i].id != own ensures !SpansLifeline(MoveRect(r, dx), moved[i]) {
      assert !SpansLifeline(r, lifelines[i]);
    }
  }

  lemma MessageReadsMoves(m: SeqMessage, lifelines: seq<SeqLifeline>, dx: real)
    requires MessageReads(m, lifelines)
    ensures MessageReads(MoveMessage(m, dx), MovedLifelines(lifelines, dx))
  {
    if m.caption.Some? {
      var r := m.caption.value.box;
      var points := MoveMessage(m, dx).points;
      forall i | 1 <= i < |points| ensures Clear(MoveRect(r, dx), points[i - 1], points[i], MIN_LABEL_GAP) {
        ClearMoves(r, m.points[i - 1], m.points[i], MIN_LABEL_GAP, dx);
      }
      if m.self {
        LifelinesClearMoves(r, m.from, lifelines, dx);
      }
    }
  }

  lemma NoteReadsMoves(n: SeqNote, lifelines: seq<SeqLifeline>, dx: real)
    requires NoteReads(n, lifelines)
    ensures NoteReads(MoveNote(n, dx), MovedLifelines(lifelines, dx))
  {
    if n.beside.Some? {
      LifelinesClearMoves(n.box, n.beside.value, lifelines, dx);
    }
  }

  // ---- frames ----

  function MovedFrames(frames: seq<SeqFrame>, dx: real): (r: seq<SeqFrame>)
    ensures |r| == |frames| && forall i :: 0 <= i < |r| ==> r[i] == MoveFrame(frames[i], dx)
  {
    MapSeq((f: SeqFrame) => MoveFrame(f, dx), frames)
  }

  lemma DividersClear(f: SeqFrame, y: real, dx: real)
    requires FrameOk(f, y)
    ensures forall j :: 0 <= j < |f.dividers| ==> DividerClear(MoveFrame(f, dx), j)
  {
    forall j | 0 <= j < |f.dividers| ensures DividerClear(MoveFrame(f, dx), j) {
      assert ClearBelow(f, j, f.dividers[j].y);
    }
  }

  lemma PairNests(f: SeqFrame, g: SeqFrame, y: real, dx: real)
    requires FrameOk(f, y) && FrameOk(g, y) && Shut(f) && Shut(g) && PairOk(f, g)
    ensures Nests(MoveFrame(f, dx), MoveFrame(g, dx))
  {
    var f', g' := MoveFrame(f, dx), MoveFrame(g, dx);
    if Overlaps(f'.box, g'.box) {
      assert Beside(f, g.box) && Contains(Inset(f.box, NEST_INSET), g.box);
      forall e | 0 <= e < |f'.dividers|
        ensures !(f'.dividers[e].y >= g'.box.y && f'.dividers[e].y <= g'.box.y + g'.box.h)
        ensures f'.dividers[e].caption.Some? ==> !Overlaps(f'.dividers[e].caption.value.box, g'.box)
      {
        assert Before(f.dividers[e], g.box) || After(f.dividers[e], g.box);
      }
    }
  }

  lemma FramesAllClean(s: State, dx: real)
    requires FramesOk(s) && s.stack == []
    ensures FramesClean(MovedFrames(s.frames, dx))
  {
    var frames := MovedFrames(s.frames, dx);
    forall i | 0 <= i < |frames| ensures FrameClean(frames, i) {
      AllShut(s, i);
      assert FrameOk(s.frames[i], s.y);
      DividersClear(s.frames[i], s.y, dx);
      forall k | i < k < |frames| ensures Nests(frames[i], frames[k]) {
        AllShut(s, k);
        PairNests(s.frames[i], s.frames[k], s.y, dx);
      }
    }
  }

  lemma AllShut(s: State, i: nat)
    requires StackOk(s) && s.stack == [] && i < |s.frames|
    ensures Shut(s.frames[i])
  {
    assert !OnStack(s.stack, i);
  }

  // ---- texts ----

  function MovedMessages(messages: seq<SeqMessage>, dx: real): (r: seq<SeqMessage>)
    ensures |r| == |messages| && forall i :: 0 <= i < |r| ==> r[i] == MoveMessage(messages[i], dx)
  {
    MapSeq((m: SeqMessage) => MoveMessage(m, dx), messages)
  }

  function MovedNotes(notes: seq<SeqNote>, dx: real): (r: seq<SeqNote>)
    ensures |r| == |notes| && forall i :: 0 <= i < |r| ==> r[i] == MoveNote(notes[i], dx)
  {
    MapSeq((n: SeqNote) => MoveNote(n, dx), notes)
  }

  predicate Shifted(a: seq<Rect>, b: seq<Rect>, dx: real) {
    |a| == |b| && forall i :: 0 <= i < |a| ==> b[i] == MoveRect(a[i], dx)
  }

  lemma {:induction false} MessageTextsShift(messages: seq<SeqMessage>, moved: seq<SeqMessage>, dx: real)
    requires |moved| == |messages| && forall i :: 0 <= i < |moved| ==> moved[i] == MoveMessage(messages[i], dx)
    ensures Shifted(MessageTexts(messages), MessageTexts(moved), dx)
  {
    if messages != [] {
      MessageTextsShift(messages[..|messages| - 1], moved[..|moved| - 1], dx);
    }
  }

  lemma {:induction false} DividerTextsShift(dividers: seq<FrameDivider>, moved: seq<FrameDivider>, dx: real)
    requires |moved| == |dividers|
    requires forall i :: 0 <= i < |moved| ==> moved[i] == dividers[i].(caption := MoveText(dividers[i].caption, dx))
    ensures Shifted(DividerTexts(dividers), DividerTexts(moved), dx)
  {
    if dividers != [] {
      DividerTextsShift(dividers[..|dividers| - 1], moved[..|moved| - 1], dx);
    }
  }

  lemma {:induction false} FrameTextsShift(frames: seq<SeqFrame>, moved: seq<SeqFrame>, dx: real)
    requires |moved| == |frames| && forall i :: 0 <= i < |moved| ==> moved[i] == MoveFrame(frames[i], dx)
    ensures Shifted(FrameTexts(frames), FrameTexts(moved), dx)
  {
    if frames != [] {
      var f, g := frames[|frames| - 1], moved[|moved| - 1];
      FrameTextsShift(frames[..|frames| - 1], moved[..|moved| - 1], dx);
      DividerTextsShift(f.dividers, g.dividers, dx);
    }
  }

  /** A layout that is a state's drawing moved across by dx. */
  predicate DrawnFrom(l: SequenceLayout, s: State, dx: real) {
    && l.messages == MovedMessages(s.messages, dx) && l.notes == MovedNotes(s.notes, dx)
    && l.frames == MovedFrames(s.frames, dx)
  }

  lemma TextsShift(l: SequenceLayout, s: State, dx: real)
    requires DrawnFrom(l, s, dx)
    ensures Shifted(StateTexts(s), Texts(l), dx)
  {
    MessageTextsShift(s.messages, l.messages, dx);
    FrameTextsShift(s.frames, l.frames, dx);
  }

  lemma TextsAllClean(l: SequenceLayout, s: State, dx: real, top: real)
    requires DrawnFrom(l, s, dx) && TextsOk(s, top)
    requires forall i :: 0 <= i < |l.actors| ==> Foot(l.actors[i].box) == top
    ensures TextsClean(Texts(l), l.actors)
  {
    TextsShift(l, s, dx);
    var texts := Texts(l);
    forall i | 0 <= i < |texts| ensures TextClean(texts, l.actors, i) {
      forall k | i < k < |texts| ensures !Overlaps(texts[i], texts[k]) {
        assert Stacked(StateTexts(s)[i], StateTexts(s)[k]);
      }
    }
  }

  // ---- the canvas ----

  predicate OnCanvas(l: SequenceLayout) {
    forall i :: 0 <= i < |AllBoxes(l)| ==> Inside(AllBoxes(l)[i], l.width, l.height)
  }

  /** r reaches neither left nor right of what the boxes do. */
  predicate Covered(boxes: seq<Rect>, r: Rect) {
    (exists b <- boxes :: b.x <= r.x) && (exists b <- boxes :: r.x + r.w <= b.x + b.w)
  }

  lemma CoveredWithin(boxes: seq<Rect>, r: Rect)
    requires boxes != [] && Covered(boxes, r)
    ensures LeftEdge(boxes) <= r.x && r.x + r.w <= RightEdge(boxes)
  {
    var lefts, rights := MapSeq((b: Rect) => b.x, boxes), MapSeq((b: Rect) => b.x + b.w, boxes);
    var b :| b in boxes && b.x <= r.x;
    var i :| 0 <= i < |boxes| && boxes[i] == b;
    assert lefts[i] == b.x;
    var c :| c in boxes && r.x + r.w <= c.x + c.w;
    var j :| 0 <= j < |boxes| && boxes[j] == c;
    assert rights[j] == c.x + c.w;
  }

  predicate AllCovered(boxes: seq<Rect>, texts: seq<Rect>) {
    forall i :: 0 <= i < |texts| ==> Covered(boxes, texts[i])
  }

  lemma CoveredSelf(boxes: seq<Rect>, r: Rect)
    requires r in boxes
    ensures Covered(boxes, r)
  {
  }

  lemma {:induction false} MessageTextsCovered(messages: seq<SeqMessage>, boxes: seq<Rect>)
    requires forall m <- messages :: m.caption.Some? ==> m.caption.value.box in boxes
    ensures AllCovered(boxes, MessageTexts(messages))
  {
    if messages != [] {
      var m := messages[|messages| - 1];
      assert m in messages;
      MessageTextsCovered(messages[..|messages| - 1], boxes);
      if m.caption.Some? {
        CoveredSelf(boxes, m.caption.value.box);
      }
    }
  }

  lemma {:induction false} DividerTextsCovered(f: SeqFrame, n: nat, boxes: seq<Rect>)
    requires Snug(f) && n <= |f.dividers| && f.box in boxes
    ensures AllCovered(boxes, DividerTexts(f.dividers[..n]))
  {
    if n > 0 {
      DividerTextsCovered(f, n - 1, boxes);
      assert f.dividers[..n][..n - 1] == f.dividers[..n - 1];
    }
  }

  lemma {:induction false} FrameTextsCovered(frames: seq<SeqFrame>, boxes: seq<Rect>)
    requires forall i :: 0 <= i < |frames| ==> Snug(frames[i]) && frames[i].box in boxes && frames[i].title in boxes
    ensures AllCovered(boxes, FrameTexts(frames))
  {
    if frames != [] {
      var f := frames[|frames| - 1];
      FrameTextsCovered(frames[..|frames| - 1], boxes);
      DividerTextsCovered(f, |f.dividers|, boxes);
      assert f.dividers[..|f.dividers|] == f.dividers;
      CoveredSelf(boxes, f.title);
    }
  }

  lemma InConcat<T>(a: seq<T>, b: seq<T>, c: seq<T>, d: seq<T>, e: seq<T>, x: T)
    ensures x in a + b + c + d + e <==> x in a || x in b || x in c || x in d || x in e
  {
  }

  lemma ExtentsHold(actors: seq<SeqActor>, s: State)
    ensures forall a <- actors :: a.box in Extents(actors, s)
    ensures forall n <- s.notes :: n.box in Extents(actors, s)
    ensures forall f <- s.frames :: f.box in Extents(actors, s) && f.title in Extents(actors, s)
    ensures forall m <- s.messages :: m.caption.Some? ==> m.caption.value.box in Extents(actors, s)
  {
    var a, n := MapSeq((a: SeqActor) => a.box, actors), MapSeq((n: SeqNote) => n.box, s.notes);
    var f, t := MapSeq((f: SeqFrame) => f.box, s.frames), MapSeq((f: SeqFrame) => f.title, s.frames);
    var m := MessageExtents(s.messages);
    forall r: Rect {
      InConcat(a, n, f, t, m, r);
    }
    forall x | x in actors ensures x.box in a {
      var i :| 0 <= i < |actors| && actors[i] == x;
      assert a[i] == x.box;
    }
    forall x | x in s.notes ensures x.box in n {
      var i :| 0 <= i < |s.notes| && s.notes[i] == x;
      assert n[i] == x.box;
    }
    forall x | x in s.frames ensures x.box in f && x.title in t {
      var i :| 0 <= i < |s.frames| && s.frames[i] == x;
      assert f[i] == x.box && t[i] == x.title;
    }
  }

  /** Everything a state draws is covered across by the canvas's extents. */
  lemma TextsCovered(actors: seq<SeqActor>, s: State)
    requires FramesOk(s) && s.stack == []
    ensures AllCovered(Extents(actors, s), StateTexts(s))
  {
    var boxes := Extents(actors, s);
    ExtentsHold(actors, s);
    MessageTextsCovered(s.messages, boxes);
    forall i | 0 <= i < |s.frames| ensures Snug(s.frames[i]) && s.frames[i].box in boxes && s.frames[i].title in boxes {
      AllShut(s, i);
      assert FrameOk(s.frames[i], s.y);
      assert s.frames[i] in s.frames;
    }
    FrameTextsCovered(s.frames, boxes);
    forall i | 0 <= i < |s.notes| ensures Covered(boxes, NoteBoxes(s.notes)[i]) {
      assert s.notes[i] in s.notes;
      CoveredSelf(boxes, s.notes[i].box);
    }
  }

  /** Boxes between the top of the canvas and a height. */
  predicate Upright(boxes: seq<Rect>, foot: real) {
    forall i :: 0 <= i < |boxes| ==> boxes[i].y >= 0.0 && Foot(boxes[i]) <= foot
  }

  function StateBoxes(actors: seq<SeqActor>, s: State): seq<Rect> {
    MapSeq((a: SeqActor) => a.box, actors) + NoteBoxes(s.notes) + MapSeq((f: SeqFrame) => f.box, s.frames)
    + StateTexts(s)
  }

  lemma {:induction false} TitleAmong(frames: seq<SeqFrame>, i: nat) returns (at: nat)
    requires i < |frames|
    ensures at < |FrameTexts(frames)| && FrameTexts(frames)[at] == frames[i].title
  {
    var last := |frames| - 1;
    if i == last {
      at := |FrameTexts(frames[..last])|;
    } else {
      at := TitleAmong(frames[..last], i);
    }
  }

  lemma FramesUpright(s: State, top: real)
    requires FramesOk(s) && s.stack == [] && TextsOk(s, top) && top >= 8.0
    ensures Upright(MapSeq((f: SeqFrame) => f.box, s.frames), s.y)
  {
    forall i | 0 <= i < |s.frames| ensures s.frames[i].box.y >= 0.0 && Foot(s.frames[i].box) <= s.y {
      var at := TitleAmong(s.frames, i);
      assert StateTexts(s)[|MessageTexts(s.messages)| + at] == s.frames[i].title;
      assert FrameOk(s.frames[i], s.y);
      AllShut(s, i);
    }
  }

  lemma ActorsHeld(actors: seq<SeqActor>, s: State)
    ensures AllCovered(Extents(actors, s), MapSeq((a: SeqActor) => a.box, actors))
    ensures AllCovered(Extents(actors, s), MapSeq((f: SeqFrame) => f.box, s.frames))
    ensures AllCovered(Extents(actors, s), NoteBoxes(s.notes))
  {
    hide Extents;
    var boxes := Extents(actors, s);
    ExtentsHold(actors, s);
    forall i | 0 <= i < |actors| ensures Covered(boxes, actors[i].box) {
      assert actors[i] in actors;
      CoveredSelf(boxes, actors[i].box);
    }
    forall i | 0 <= i < |s.frames| ensures Covered(boxes, s.frames[i].box) {
      assert s.frames[i] in s.frames;
      CoveredSelf(boxes, s.frames[i].box);
    }
    forall i | 0 <= i < |s.notes| ensures Covered(boxes, s.notes[i].box) {
      assert s.notes[i] in s.notes;
      CoveredSelf(boxes, s.notes[i].box);
    }
  }

  lemma NotesUpright(s: State, top: real)
    requires TextsOk(s, top) && top >= 8.0
    ensures Upright(NoteBoxes(s.notes), s.y)
  {
    forall i | 0 <= i < |s.notes| ensures NoteBoxes(s.notes)[i].y >= 0.0 && Foot(NoteBoxes(s.notes)[i]) <= s.y {
      assert StateTexts(s)[|MessageTexts(s.messages) + FrameTexts(s.frames)| + i] == NoteBoxes(s.notes)[i];
    }
  }

  lemma ConcatHeld(boxes: seq<Rect>, a: seq<Rect>, b: seq<Rect>, c: seq<Rect>, d: seq<Rect>, foot: real)
    requires AllCovered(boxes, a) && AllCovered(boxes, b) && AllCovered(boxes, c) && AllCovered(boxes, d)
    requires Upright(a, foot) && Upright(b, foot) && Upright(c, foot) && Upright(d, foot)
    ensures AllCovered(boxes, a + b + c + d) && Upright(a + b + c + d, foot)
  {
    hide Covered;
  }

  lemma StateBoxesHeld(actors: seq<SeqActor>, s: State, top: real)
    requires FramesOk(s) && s.stack == [] && TextsOk(s, top) && top >= 8.0
    requires forall i :: 0 <= i < |actors| ==> actors[i].box.y >= 0.0 && Foot(actors[i].box) == top
    ensures AllCovered(Extents(actors, s), StateBoxes(actors, s)) && Upright(StateBoxes(actors, s), s.y)
  {
    hide Extents, AllCovered, FramesOk;
    ActorsHeld(actors, s);
    TextsCovered(actors, s);
    FramesUpright(s, top);
    NotesUpright(s, top);
    ConcatHeld(Extents(actors, s), MapSeq((a: SeqActor) => a.box, actors), NoteBoxes(s.notes),
               MapSeq((f: SeqFrame) => f.box, s.frames), StateTexts(s), s.y);
  }

  lemma BoxesShift(l: SequenceLayout, actors: seq<SeqActor>, s: State, dx: real)
    requires DrawnFrom(l, s, dx) && |l.actors| == |actors|
    requires forall i :: 0 <= i < |actors| ==> l.actors[i] == MoveActor(actors[i], dx)
    ensures Shifted(StateBoxes(actors, s), AllBoxes(l), dx)
  {
    TextsShift(l, s, dx);
    var a, a' := MapSeq((a: SeqActor) => a.box, actors), MapSeq((a: SeqActor) => a.box, l.actors);
    var f, f' := MapSeq((f: SeqFrame) => f.box, s.frames), MapSeq((f: SeqFrame) => f.box, l.frames);
    assert Shifted(a, a', dx) && Shifted(f, f', dx) && Shifted(NoteBoxes(s.notes), NoteBoxes(l.notes), dx);
  }

  /** A box the extents cover, moved across, is inside the canvas. */
  lemma BoxInside(boxes: seq<Rect>, r: Rect, y: real, dx: real)
    requires boxes != [] && Covered(boxes, r) && r.y >= 0.0 && Foot(r) <= y && dx == MARGIN - LeftEdge(boxes)
    ensures Inside(MoveRect(r, dx), Up(RightEdge(boxes) + dx + MARGIN), Up(y - ROW_GAP + 16.0 + MARGIN))
  {
    CoveredWithin(boxes, r);
  }

  lemma FramedSizes(l: SequenceLayout, actors: seq<SeqActor>, lifelines: seq<SeqLifeline>, s: State)
    requires actors != [] && l == Framed(actors, lifelines, s, BottomOf(s))
    ensures var boxes := Extents(actors, s); var dx := MARGIN - LeftEdge(boxes);
            && DrawnFrom(l, s, dx) && |l.actors| == |actors|
            && (forall i :: 0 <= i < |actors| ==> l.actors[i] == MoveActor(actors[i], dx))
            && l.width == Up(RightEdge(boxes) + dx + MARGIN) && l.height == Up(s.y - ROW_GAP + 16.0 + MARGIN)
  {
    hide Extents;
  }

  lemma AllInside(boxes: seq<Rect>, before: seq<Rect>, after: seq<Rect>, y: real, dx: real)
    requires boxes != [] && dx == MARGIN - LeftEdge(boxes) && Shifted(before, after, dx) && AllCovered(boxes, before)
             && Upright(before, y)
    ensures forall i :: 0 <= i < |after| ==>
              Inside(after[i], Up(RightEdge(boxes) + dx + MARGIN), Up(y - ROW_GAP + 16.0 + MARGIN))
  {
    forall i | 0 <= i < |after|
      ensures Inside(after[i], Up(RightEdge(boxes) + dx + MARGIN), Up(y - ROW_GAP + 16.0 + MARGIN))
    {
      BoxInside(boxes, before[i], y, dx);
    }
  }

  lemma CanvasHolds(l: SequenceLayout, actors: seq<SeqActor>, lifelines: seq<SeqLifeline>, s: State, top: real)
    requires actors != [] && FramesOk(s) && s.stack == [] && TextsOk(s, top) && top >= 8.0
    requires forall i :: 0 <= i < |actors| ==> actors[i].box.y >= 0.0 && Foot(actors[i].box) == top
    requires l == Framed(actors, lifelines, s, BottomOf(s))
    ensures OnCanvas(l)
  {
    hide FramesOk, TextsOk, Extents, StateBoxes, AllBoxes, Framed, DrawnFrom, Shifted, AllCovered, Upright, Up;
    hide BottomOf, LeftEdge, RightEdge;
    var boxes := Extents(actors, s);
    var dx := MARGIN - LeftEdge(boxes);
    var before, after := StateBoxes(actors, s), AllBoxes(l);
    FramedSizes(l, actors, lifelines, s);
    BoxesShift(l, actors, s, dx);
    StateBoxesHeld(actors, s, top);
    AllInside(boxes, before, after, s.y, dx);
  }
}
