// The main result for sequences: for every diagram the reader accepts, the check
// finds nothing wrong with the layout, and the layout draws the whole diagram.
module SequenceTheorem {
  import opened Geometry
  import opened DiagramTheme
  import opened SequenceIR
  import opened SequenceLayout
  import opened SequenceCheck
  import opened SequenceRows
  import opened SequenceFrames
  import opened SequenceProof
  import opened SequenceEnclosure
  import opened SequenceCanvas

  // ---- the theorem ----

  lemma ActorsFit(fonts: Fonts, actors: seq<Actor>, xs: seq<real>)
    requires |xs| == |actors|
    ensures forall i :: 0 <= i < |actors| ==>
              ActorFits(fonts.adv, PlaceActors(fonts, actors, xs)[i])
              && PlaceActors(fonts, actors, xs)[i].box.y >= 0.0
              && Foot(PlaceActors(fonts, actors, xs)[i].box) == MARGIN + HeadHeight(Plates(fonts, actors))
  {
    forall i | 0 <= i < |actors| ensures ActorFits(fonts.adv, PlaceActors(fonts, actors, xs)[i]) {
      var p := PlateOf(fonts, actors[i]);
      forall k | 0 <= k < |p.lines| ensures TextWidth(fonts.adv, p.lines[k], p.size, p.face) <= p.w - 2.0 * BOX_PAD {
        assert p.lines[k] in p.lines;
      }
    }
  }

  /** Rows that may be placed: balanced, between known lifelines with room for each. */
  predicate Ready(env: Env, rows: seq<Row>) {
    && LeftToRight(env) && KnownEnds(env.actors, rows) && Nesting(rows) == Some(0)
    && forall r <- rows :: KnownRow(env.actors, r) && HasRoom(env, r)
  }

  function Placed(env: Env, rows: seq<Row>): State
    requires Ready(env, rows)
  {
    PlaceRows(env, TopOf(env) + 24.0, rows)
  }

  function PlacedLifelines(env: Env, rows: seq<Row>): (lifelines: seq<SeqLifeline>)
    requires Ready(env, rows)
    ensures LifelinesOf(env, lifelines)
  {
    PlaceLifelines(env.actors, env.xs, TopOf(env), BottomOf(Placed(env, rows)))
  }

  lemma PlacedGood(env: Env, rows: seq<Row>)
    requires Ready(env, rows)
    ensures Good(env, PlacedLifelines(env, rows), Placed(env, rows), rows, TopOf(env))
    ensures Placed(env, rows).stack == []
  {
    hide PlaceRows, TextsOk, FramesOk, MessagesDrawn, NotesDrawn, FramesTitled;
    RowsGood(env, PlacedLifelines(env, rows), rows, TopOf(env));
  }

  /** l is what was placed, moved across by dx. */
  predicate Moved(l: SequenceLayout, actors: seq<SeqActor>, lifelines: seq<SeqLifeline>, s: State, dx: real) {
    && DrawnFrom(l, s, dx) && l.lifelines == MovedLifelines(lifelines, dx)
    && |l.actors| == |actors| && (forall i :: 0 <= i < |actors| ==> l.actors[i] == MoveActor(actors[i], dx))
  }

  lemma FramedShape(actors: seq<SeqActor>, lifelines: seq<SeqLifeline>, s: State)
    requires actors != []
    ensures Moved(Framed(actors, lifelines, s, BottomOf(s)), actors, lifelines, s,
                  MARGIN - LeftEdge(Extents(actors, s)))
  {
  }

  lemma MessagesRead(env: Env, lifelines: seq<SeqLifeline>, messages: seq<SeqMessage>, rows: seq<Row>, y: real,
                     dx: real)
    requires env.Valid() && KnownEnds(env.actors, rows) && MessagesDrawn(env, lifelines, messages, rows, y)
    ensures forall i :: 0 <= i < |messages| ==>
              MessageReads(MoveMessage(messages[i], dx), MovedLifelines(lifelines, dx))
  {
    forall i | 0 <= i < |messages| ensures MessageReads(MoveMessage(messages[i], dx), MovedLifelines(lifelines, dx)) {
      assert Draws(env, lifelines, messages[i], MessageRows(rows)[i]);
      MessageReadsMoves(messages[i], lifelines, dx);
    }
  }

  lemma NotesRead(env: Env, lifelines: seq<SeqLifeline>, notes: seq<SeqNote>, rows: seq<Row>, dx: real)
    requires env.Valid() && KnownEnds(env.actors, rows) && NotesDrawn(env, lifelines, notes, rows)
    ensures forall i :: 0 <= i < |notes| ==> NoteReads(MoveNote(notes[i], dx), MovedLifelines(lifelines, dx))
                                             && NoteFits(env.fonts.adv, MoveNote(notes[i], dx))
  {
    forall i | 0 <= i < |notes|
      ensures NoteReads(MoveNote(notes[i], dx), MovedLifelines(lifelines, dx))
              && NoteFits(env.fonts.adv, MoveNote(notes[i], dx))
    {
      assert NoteDraws(env, lifelines, notes[i], NoteRows(rows)[i]);
      NoteReadsMoves(notes[i], lifelines, dx);
    }
  }

  /** Participants in their row at the top, each name inside its box. */
  predicate ActorsOk(adv: Advance, actors: seq<SeqActor>, top: real) {
    forall i :: 0 <= i < |actors| ==> ActorFits(adv, actors[i]) && actors[i].box.y >= 0.0 && Foot(actors[i].box) == top
  }

  /** A drawing moved across by dx is clean if it was placed well and fits its canvas. */
  lemma MovedClean(env: Env, l: SequenceLayout, actors: seq<SeqActor>, lifelines: seq<SeqLifeline>, s: State,
                   rows: seq<Row>,
                   top: real, dx: real)
    requires env.Valid() && KnownEnds(env.actors, rows)
    requires FramesOk(s) && TextsOk(s, top) && RowsDrawn(env, lifelines, s, rows) && s.stack == []
    requires ActorsOk(env.fonts.adv, actors, top)
    requires Moved(l, actors, lifelines, s, dx) && OnCanvas(l)
    ensures Clean(env.fonts.adv, l)
  {
    FramesAllClean(s, dx);
    TextsAllClean(l, s, dx, top);
    MessagesRead(env, lifelines, s.messages, rows, s.y, dx);
    NotesRead(env, lifelines, s.notes, rows, dx);
  }

  lemma FramedFits(l: SequenceLayout, actors: seq<SeqActor>, lifelines: seq<SeqLifeline>, s: State, top: real)
      returns (dx: real)
    requires actors != [] && FramesOk(s) && s.stack == [] && TextsOk(s, top) && top >= 8.0
    requires forall i :: 0 <= i < |actors| ==> actors[i].box.y >= 0.0 && Foot(actors[i].box) == top
    requires l == Framed(actors, lifelines, s, BottomOf(s))
    ensures OnCanvas(l) && Moved(l, actors, lifelines, s, dx)
  {
    hide FramesOk, TextsOk, OnCanvas, Moved, Framed, Extents;
    dx := MARGIN - LeftEdge(Extents(actors, s));
    CanvasHolds(l, actors, lifelines, s, top);
    FramedShape(actors, lifelines, s);
  }

  lemma BetweenClean(env: Env, rows: seq<Row>)
    requires Ready(env, rows)
    ensures Clean(env.fonts.adv, LayoutBetween(env, rows))
  {
    hide TextsOk, FramesOk, RowsDrawn, Clean, PlaceRows, OnCanvas, Moved;
    var top := TopOf(env);
    var actors, lifelines := PlaceActors(env.fonts, env.actors, env.xs), PlacedLifelines(env, rows);
    PlacedGood(env, rows);
    ActorsFit(env.fonts, env.actors, env.xs);
    assert ActorsOk(env.fonts.adv, actors, top);
    var dx := FramedFits(LayoutBetween(env, rows), actors, lifelines, Placed(env, rows), top);
    MovedClean(env, LayoutBetween(env, rows), actors, lifelines, Placed(env, rows), rows, top, dx);
  }

  /** For every well-formed diagram, nothing is wrong with its layout. */
  lemma LayoutClean(fonts: Fonts, ir: SequenceIR)
    requires WellFormed(ir)
    ensures Clean(fonts.adv, Layout(fonts, ir))
  {
    LifelinesRoomy(fonts, ir);
    BetweenClean(EnvOf(fonts, ir), ir.rows);
  }

  /** Participants' boxes stand in order, at least colGap apart. */
  lemma ParticipantsApart(fonts: Fonts, ir: SequenceIR, i: nat, j: nat)
    requires WellFormed(ir) && i < j < |ir.actors|
    ensures var actors := Layout(fonts, ir).actors;
            && |actors| == |ir.actors| && actors[i].id == ir.actors[i].id
            && actors[i].box.x + actors[i].box.w + COL_GAP <= actors[j].box.x
  {
    hide Lifelines, Ready, PlaceRows, Plates, WellFormed, Extents;
    LifelinesRoomy(fonts, ir);
    var env, plates := EnvOf(fonts, ir), Plates(fonts, ir.actors);
    ActorsApart(plates, env.xs, HeadHeight(plates), i, j);
  }

  // ---- the layout draws the whole diagram ----

  /** The environment as it stands on the canvas: every lifeline moved by dx. */
  function MovedEnv(env: Env, dx: real): (r: Env)
    requires env.Valid()
    ensures r.Valid() && r.actors == env.actors && r.fonts == env.fonts
    ensures forall i :: 0 <= i < |env.xs| ==> r.xs[i] == env.xs[i] + dx
  {
    Env(env.fonts, env.actors, MapSeq((x: real) => x + dx, env.xs))
  }

  lemma DrawsMoves(env: Env, lifelines: seq<SeqLifeline>, m: SeqMessage, r: Row, dx: real)
    requires env.Valid() && r.Message? && KnownRow(env.actors, r) && Draws(env, lifelines, m, r)
    ensures Draws(MovedEnv(env, dx), MovedLifelines(lifelines, dx), MoveMessage(m, dx), r)
  {
    hide PlaceRow, PlaceRows;
    MessageReadsMoves(m, lifelines, dx);
  }

  lemma NoteDrawsMoves(env: Env, lifelines: seq<SeqLifeline>, n: SeqNote, r: Row, dx: real)
    requires env.Valid() && r.Note? && KnownRow(env.actors, r) && NoteDraws(env, lifelines, n, r)
    ensures NoteDraws(MovedEnv(env, dx), MovedLifelines(lifelines, dx), MoveNote(n, dx), r)
  {
    NoteReadsMoves(n, lifelines, dx);
  }

  lemma MessagesMove(env: Env, lifelines: seq<SeqLifeline>, messages: seq<SeqMessage>, rows: seq<Row>, dx: real,
                     y: real, y': real)
    requires env.Valid() && KnownEnds(env.actors, rows) && MessagesDrawn(env, lifelines, messages, rows, y) && y <= y'
    ensures MessagesDrawn(MovedEnv(env, dx), MovedLifelines(lifelines, dx), MovedMessages(messages, dx), rows, y')
  {
    hide Draws, MessageRows, MovedEnv;
    forall k | 0 <= k < |messages|
      ensures Draws(MovedEnv(env, dx), MovedLifelines(lifelines, dx), MoveMessage(messages[k], dx),
                    MessageRows(rows)[k])
    {
      DrawsMoves(env, lifelines, messages[k], MessageRows(rows)[k], dx);
    }
  }

  lemma NotesMove(env: Env, lifelines: seq<SeqLifeline>, notes: seq<SeqNote>, rows: seq<Row>, dx: real)
    requires env.Valid() && KnownEnds(env.actors, rows) && NotesDrawn(env, lifelines, notes, rows)
    ensures NotesDrawn(MovedEnv(env, dx), MovedLifelines(lifelines, dx), MovedNotes(notes, dx), rows)
  {
    hide NoteDraws, NoteRows, MovedEnv;
    forall k | 0 <= k < |notes|
      ensures NoteDraws(MovedEnv(env, dx), MovedLifelines(lifelines, dx), MoveNote(notes[k], dx), NoteRows(rows)[k])
    {
      NoteDrawsMoves(env, lifelines, notes[k], NoteRows(rows)[k], dx);
    }
  }

  lemma TitlesMove(adv: Advance, frames: seq<SeqFrame>, rows: seq<Row>, dx: real)
    requires FramesTitled(adv, frames, rows)
    ensures FramesTitled(adv, MovedFrames(frames, dx), rows)
  {
    forall k | 0 <= k < |frames| ensures Titles(adv, MoveFrame(frames[k], dx), FrameRows(rows)[k]) {
      assert Titles(adv, frames[k], FrameRows(rows)[k]);
    }
  }

  /** Everything the source asks for, drawn in a layout. */
  predicate DrawsAll(env: Env, l: SequenceLayout, rows: seq<Row>)
    requires env.Valid() && KnownEnds(env.actors, rows)
  {
    && LifelinesOf(env, l.lifelines)
    && MessagesDrawn(env, l.lifelines, l.messages, rows, l.height)
    && NotesDrawn(env, l.lifelines, l.notes, rows)
    && FramesTitled(env.fonts.adv, l.frames, rows)
  }

  lemma MovedDrawsAll(env: Env, l: SequenceLayout, actors: seq<SeqActor>, lifelines: seq<SeqLifeline>, s: State,
                      rows: seq<Row>, dx: real)
    requires env.Valid() && KnownEnds(env.actors, rows) && LifelinesOf(env, lifelines)
             && RowsDrawn(env, lifelines, s, rows)
    requires Moved(l, actors, lifelines, s, dx) && s.y <= l.height
    ensures DrawsAll(MovedEnv(env, dx), l, rows)
  {
    hide MessagesDrawn, NotesDrawn, FramesTitled;
    MessagesMove(env, lifelines, s.messages, rows, dx, s.y, l.height);
    NotesMove(env, lifelines, s.notes, rows, dx);
    TitlesMove(env.fonts.adv, s.frames, rows, dx);
  }

  /** The layout is what was placed, moved onto its canvas. */
  lemma BetweenShape(env: Env, rows: seq<Row>) returns (dx: real)
    requires Ready(env, rows)
    ensures Moved(LayoutBetween(env, rows), PlaceActors(env.fonts, env.actors, env.xs), PlacedLifelines(env, rows),
                  Placed(env, rows), dx)
    ensures Placed(env, rows).y <= LayoutBetween(env, rows).height
  {
    hide PlaceRows, Moved, Extents;
    var s, lifelines := Placed(env, rows), PlacedLifelines(env, rows);
    var actors := PlaceActors(env.fonts, env.actors, env.xs);
    dx := MARGIN - LeftEdge(Extents(actors, s));
    FramedShape(actors, lifelines, s);
  }

  lemma BetweenDraws(env: Env, rows: seq<Row>) returns (dx: real)
    requires Ready(env, rows)
    ensures DrawsAll(MovedEnv(env, dx), LayoutBetween(env, rows), rows)
  {
    hide LayoutBetween, Placed, PlacedLifelines, PlaceActors, RowsDrawn, DrawsAll, Moved, FramesOk, TextsOk;
    PlacedGood(env, rows);
    dx := BetweenShape(env, rows);
    MovedDrawsAll(env, LayoutBetween(env, rows), PlaceActors(env.fonts, env.actors, env.xs), PlacedLifelines(env, rows),
                  Placed(env, rows), rows, dx);
  }

  /** Every message, note and frame of the source is drawn, in the source's order
      and between the lifelines it names; messages stand one under another. */
  lemma LayoutDraws(fonts: Fonts, ir: SequenceIR) returns (dx: real)
    requires WellFormed(ir)
    ensures DrawsAll(MovedEnv(EnvOf(fonts, ir), dx), Layout(fonts, ir), ir.rows)
  {
    LifelinesRoomy(fonts, ir);
    dx := BetweenDraws(EnvOf(fonts, ir), ir.rows);
  }

  lemma StandsMoves(f: SeqFrame, m: SeqMessage, n: SeqNote, dx: real)
    ensures MessageInside(f, m) ==> MessageInside(MoveFrame(f, dx), MoveMessage(m, dx))
    ensures MessageApart(f, m) ==> MessageApart(MoveFrame(f, dx), MoveMessage(m, dx))
    ensures Contains(Inset(f.box, NEST_INSET), n.box) ==>
              Contains(Inset(MoveFrame(f, dx).box, NEST_INSET), MoveNote(n, dx).box)
    ensures NoteApart(f, n) ==> NoteApart(MoveFrame(f, dx), MoveNote(n, dx))
  {
    if MessageInside(f, m) {
      var f', m' := MoveFrame(f, dx), MoveMessage(m, dx);
      forall k | 0 <= k < |m'.points|
        ensures Contains(Inset(f'.box, NEST_INSET), Rect(m'.points[k].x, m'.points[k].y, 0.0, 0.0))
      {
        assert Contains(Inset(f.box, NEST_INSET), Rect(m.points[k].x, m.points[k].y, 0.0, 0.0));
      }
    }
  }

  /** What row p places: its message or its note. */
  predicate MessageStandsTo(f: SeqFrame, holds: bool, m: SeqMessage) {
    if holds then MessageInside(f, m) else MessageApart(f, m)
  }

  predicate NoteStandsTo(f: SeqFrame, holds: bool, n: SeqNote) {
    if holds then Contains(Inset(f.box, NEST_INSET), n.box) else NoteApart(f, n)
  }

  lemma PlacedShut(env: Env, rows: seq<Row>, f: nat)
    requires Ready(env, rows) && f < |FrameRows(rows)|
    ensures f < |Placed(env, rows).frames| && Shut(Placed(env, rows).frames[f])
  {
    hide PlaceRows, FrameRows, RowsDrawn, TextsOk;
    PlacedGood(env, rows);
    StackIsFrameStack(env, TopOf(env) + 24.0, rows);
    AllShut(Placed(env, rows), f);
  }

  lemma ItemsStand(env: Env, y: real, rows: seq<Row>, p: nat, f: nat)
    requires env.Valid() && KnownEnds(env.actors, rows) && p < |rows| && KnownEnds(env.actors, rows[..p])
    requires KnownRow(env.actors, rows[p]) && f < |PlaceRows(env, y, rows).frames|
    ensures var sp, r := PlaceRows(env, y, rows[..p]), rows[p];
            AllStand(env, sp, r, PlaceRows(env, y, rows).frames[f], f in FrameStack(rows[..p]))
  {
    hide PlaceRows, PlaceRow, RowItems, Stands, FrameStack;
    var sp, r := PlaceRows(env, y, rows[..p]), rows[p];
    forall k | 0 <= k < |RowItems(env, sp, r)|
      ensures Stands(PlaceRows(env, y, rows).frames[f], f in FrameStack(rows[..p]), RowItems(env, sp, r)[k].box)
    {
      RowStands(env, y, rows, p, f, k);
    }
  }

  lemma PlacedMessageStands(env: Env, rows: seq<Row>, p: nat, f: nat)
    requires Ready(env, rows) && p < |rows| && f < |FrameRows(rows)| && KnownEnds(env.actors, rows[..p])
    requires rows[p].Message? && KnownRow(env.actors, rows[p]) && f < |Placed(env, rows).frames|
    ensures var sp := PlaceRows(env, TopOf(env) + 24.0, rows[..p]);
            MessageStandsTo(Placed(env, rows).frames[f], f in FrameStack(rows[..p]),
                            PlaceMessage(env, sp.y, rows[p], sp.stack != []))
  {
    hide PlaceRows, PlaceRow, RowItems, Stands, PlaceMessage, MessageInside, MessageApart, FrameStack, FrameRows;
    hide HasRoom, Ready, Placed, KnownRow, TopOf, AllStand;
    ReadyRow(env, rows, p);
    var y := TopOf(env) + 24.0;
    var sp, r := PlaceRows(env, y, rows[..p]), rows[p];
    PlacedShut(env, rows, f);
    var placed, holds := PlaceRows(env, y, rows), f in FrameStack(rows[..p]);
    ItemsStand(env, y, rows, p, f);
    MessageStands(env, sp, r, placed.frames[f], holds);
  }

  lemma PlacedNoteStands(env: Env, rows: seq<Row>, p: nat, f: nat)
    requires Ready(env, rows) && p < |rows| && f < |FrameRows(rows)| && KnownEnds(env.actors, rows[..p])
    requires rows[p].Note? && KnownRow(env.actors, rows[p]) && f < |Placed(env, rows).frames|
    ensures var sp := PlaceRows(env, TopOf(env) + 24.0, rows[..p]);
            NoteStandsTo(Placed(env, rows).frames[f], f in FrameStack(rows[..p]), PlaceNote(env, sp.y, rows[p]))
  {
    hide PlaceRows, PlaceRow, RowItems, Stands, PlaceNote, NoteApart, FrameStack, FrameRows, HasRoom, Ready;
    hide Placed, KnownRow, TopOf, AllStand;
    ReadyRow(env, rows, p);
    var y := TopOf(env) + 24.0;
    var sp, r := PlaceRows(env, y, rows[..p]), rows[p];
    PlacedShut(env, rows, f);
    var placed, holds := PlaceRows(env, y, rows), f in FrameStack(rows[..p]);
    ItemsStand(env, y, rows, p, f);
    NoteStands(env, sp, r, placed.frames[f], holds);
  }

  lemma AppendedLast(env: Env, s: State, r: Row)
    requires env.Valid() && s.Valid(env) && KnownRow(env.actors, r)
    ensures r.Message? ==> PlaceRow(env, s, r).messages == s.messages + [PlaceMessage(env, s.y, r, s.stack != [])]
    ensures r.Note? ==> PlaceRow(env, s, r).notes == s.notes + [PlaceNote(env, s.y, r)]
  {
  }

  /** Row p of the source is the message or note drawn at its place in order. */
  lemma PlacedAt(env: Env, y: real, rows: seq<Row>, p: nat)
    requires env.Valid() && KnownEnds(env.actors, rows) && p < |rows| && KnownEnds(env.actors, rows[..p])
    requires KnownRow(env.actors, rows[p])
    ensures var s, sp, r := PlaceRows(env, y, rows), PlaceRows(env, y, rows[..p]), rows[p];
            && (r.Message? ==> |MessageRows(rows[..p])| < |s.messages|
                               && s.messages[|MessageRows(rows[..p])|] == PlaceMessage(env, sp.y, r, sp.stack != []))
            && (r.Note? ==> |NoteRows(rows[..p])| < |s.notes|
                            && s.notes[|NoteRows(rows[..p])|] == PlaceNote(env, sp.y, r))
  {
    hide PlaceRow, PlaceMessage, PlaceNote, MessageRows, NoteRows;
    var before, upTo := rows[..p], rows[..p + 1];
    assert upTo[..p] == before && upTo[p] == rows[p];
    EarlierRowsStay(env, y, rows, p + 1);
    AppendedLast(env, PlaceRows(env, y, before), rows[p]);
    CountRows(env, y, before);
  }

  lemma {:induction false} CountRows(env: Env, y: real, rows: seq<Row>)
    requires env.Valid() && KnownEnds(env.actors, rows)
    ensures |PlaceRows(env, y, rows).messages| == |MessageRows(rows)|
            && |PlaceRows(env, y, rows).notes| == |NoteRows(rows)|
  {
    if rows != [] {
      assert KnownRow(env.actors, rows[|rows| - 1]) by {
        assert rows[|rows| - 1] in rows;
      }
      CountRows(env, y, rows[..|rows| - 1]);
    }
  }

  lemma MovedStandsTo(f: SeqFrame, holds: bool, m: SeqMessage, n: SeqNote, dx: real)
    ensures MessageStandsTo(f, holds, m) ==> MessageStandsTo(MoveFrame(f, dx), holds, MoveMessage(m, dx))
    ensures NoteStandsTo(f, holds, n) ==> NoteStandsTo(MoveFrame(f, dx), holds, MoveNote(n, dx))
  {
    hide MessageInside, MessageApart, NoteApart;
    StandsMoves(f, m, n, dx);
  }

  /** A frame is a box around exactly the messages written inside it: those it
      holds whole, inset on every side, and every other stands above or below it. */
  lemma BetweenHoldsMessage(env: Env, rows: seq<Row>, p: nat, f: nat)
    requires Ready(env, rows) && p < |rows| && f < |FrameRows(rows)| && rows[p].Message?
    ensures var l, k := LayoutBetween(env, rows), |MessageRows(rows[..p])|;
            f < |l.frames| && k < |l.messages|
            && MessageStandsTo(l.frames[f], f in FrameStack(rows[..p]), l.messages[k])
  {
    hide LayoutBetween, PlaceRow, PlaceRows, MessageStandsTo, FrameStack, PlaceMessage, HasRoom, FrameRows;
    hide MessageRows, TopOf, Ready, Placed;
    ReadyRow(env, rows, p);
    PlacedShut(env, rows, f);
    PlacedMessageStands(env, rows, p, f);
    PlacedAt(env, TopOf(env) + 24.0, rows, p);
    var s := Placed(env, rows);
    var dx := BetweenShape(env, rows);
    MovedStandsTo(s.frames[f], f in FrameStack(rows[..p]), s.messages[|MessageRows(rows[..p])|],
                  SeqNote([], None, s.frames[f].box), dx);
  }

  lemma ReadyRow(env: Env, rows: seq<Row>, p: nat)
    requires Ready(env, rows) && p < |rows|
    ensures env.Valid() && KnownEnds(env.actors, rows) && KnownEnds(env.actors, rows[..p])
            && KnownRow(env.actors, rows[p])
    ensures Placed(env, rows) == PlaceRows(env, TopOf(env) + 24.0, rows)
  {
    hide PlaceRows, TopOf, HasRoom;
    assert rows[p] in rows;
  }

  lemma BetweenHoldsNote(env: Env, rows: seq<Row>, p: nat, f: nat)
    requires Ready(env, rows) && p < |rows| && f < |FrameRows(rows)| && rows[p].Note?
    ensures var l, k := LayoutBetween(env, rows), |NoteRows(rows[..p])|;
            f < |l.frames| && k < |l.notes| && NoteStandsTo(l.frames[f], f in FrameStack(rows[..p]), l.notes[k])
  {
    hide LayoutBetween, PlaceRow, PlaceRows, NoteStandsTo, FrameStack, PlaceNote, HasRoom, FrameRows, NoteRows;
    hide TopOf, Ready, Placed;
    ReadyRow(env, rows, p);
    PlacedShut(env, rows, f);
    PlacedNoteStands(env, rows, p, f);
    PlacedAt(env, TopOf(env) + 24.0, rows, p);
    var s := Placed(env, rows);
    var dx := BetweenShape(env, rows);
    var none := SeqMessage("", "", [], false, Filled, None, false, false);
    MovedStandsTo(s.frames[f], f in FrameStack(rows[..p]), none, s.notes[|NoteRows(rows[..p])|], dx);
  }

  /** A frame is a box around exactly the messages and notes written inside it:
      those it holds whole, inset on every side, and every other stands above or
      below it. */
  lemma FramesHoldTheirRows(fonts: Fonts, ir: SequenceIR, p: nat, f: nat)
    requires WellFormed(ir) && p < |ir.rows| && f < |FrameRows(ir.rows)|
    ensures var l, r := Layout(fonts, ir), ir.rows[p];
            var holds := f in FrameStack(ir.rows[..p]);
            var i, j := |MessageRows(ir.rows[..p])|, |NoteRows(ir.rows[..p])|;
            && (r.Message? ==> f < |l.frames| && i < |l.messages| && MessageStandsTo(l.frames[f], holds, l.messages[i]))
            && (r.Note? ==> f < |l.frames| && j < |l.notes| && NoteStandsTo(l.frames[f], holds, l.notes[j]))
  {
    hide LayoutBetween, MessageStandsTo, NoteStandsTo, FrameStack, Lifelines;
    LifelinesRoomy(fonts, ir);
    if ir.rows[p].Message? {
      BetweenHoldsMessage(EnvOf(fonts, ir), ir.rows, p, f);
    } else if ir.rows[p].Note? {
      BetweenHoldsNote(EnvOf(fonts, ir), ir.rows, p, f);
    }
  }
}
