// checkSequence of ui/src/diagramCheck.ts: everything that can be wrong with a
// sequence layout.
module SequenceCheck {
  import opened Geometry
  import opened DiagramTheme
  import opened SequenceLayout

  /** The least clear space between a text and its own line. */
  const MIN_LABEL_GAP := 6.0

  datatype Finding =
    | ActorOverflow(actor: nat)
    | NoteOverflow(note: nat)
    | NearOwnLine(message: nat)
    | LoopOnLifeline(message: nat, lifeline: nat)
    | TitleOverflow(frame: nat)
    | DividerOnText(frame: nat, divider: nat)
    | FramesTangled(frame: nat, inner: nat)
    | DividerThroughFrame(frame: nat, inner: nat)
    | FrameUnderText(frame: nat, inner: nat)
    | NoteOnLifeline(note: nat, lifeline: nat)
    | TextOnActor(first: nat, actor: nat)
    | TextsOverlap(first: nat, second: nat)
    | PastCanvas(box: nat)

  // ---- what each rule asks ----

  predicate LinesFit(adv: Advance, lines: seq<string>, size: Size, face: Face, room: real) {
    forall i :: 0 <= i < |lines| ==> TextWidth(adv, lines[i], size, face) <= room
  }

  predicate ActorFits(adv: Advance, a: SeqActor) {
    LinesFit(adv, a.lines, a.size, a.face, a.box.w - 2.0 * BOX_PAD)
  }

  predicate NoteFits(adv: Advance, n: SeqNote) {
    LinesFit(adv, n.lines, RAMP_TEXT, Sans, n.box.w - 2.0 * NOTE_PAD)
  }

  /** The text is clear of every segment of a line. */
  predicate ClearOfLine(r: Rect, points: seq<Point>, least: real) {
    forall i :: 1 <= i < |points| ==> Clear(r, points[i - 1], points[i], least)
  }

  predicate SpansLifeline(r: Rect, l: SeqLifeline) {
    r.x < l.x && l.x < r.x + r.w && r.y < l.y2 && r.y + r.h > l.y1
  }

  /** A box clear of every lifeline but the one it belongs to. */
  predicate ClearOfLifelines(r: Rect, own: string, lifelines: seq<SeqLifeline>) {
    forall i :: 0 <= i < |lifelines| && lifelines[i].id != own ==> !SpansLifeline(r, lifelines[i])
  }

  predicate MessageReads(m: SeqMessage, lifelines: seq<SeqLifeline>) {
    m.caption.Some? ==>
      && ClearOfLine(m.caption.value.box, m.points, MIN_LABEL_GAP)
      && (m.self ==> ClearOfLifelines(m.caption.value.box, m.from, lifelines))
  }

  predicate NoteReads(n: SeqNote, lifelines: seq<SeqLifeline>) {
    n.beside.Some? ==> ClearOfLifelines(n.box, n.beside.value, lifelines)
  }

  predicate TitleFits(f: SeqFrame) {
    f.title.x + f.title.w <= f.box.x + f.box.w
  }

  predicate BelowText(d: FrameDivider, r: Rect) {
    d.y >= r.y + r.h + 2.0
  }

  /** Divider j is below the title and every divider text above it. */
  predicate DividerClear(f: SeqFrame, j: nat)
    requires j < |f.dividers|
  {
    && BelowText(f.dividers[j], f.title)
    && (forall e :: 0 <= e < j && f.dividers[e].caption.Some?
                    ==> BelowText(f.dividers[j], f.dividers[e].caption.value.box))
  }

  /** No text of f lies on g. */
  predicate TextsClearOf(f: SeqFrame, g: Rect) {
    && !Overlaps(f.title, g)
    && (forall e :: 0 <= e < |f.dividers| && f.dividers[e].caption.Some? ==>
        !Overlaps(f.dividers[e].caption.value.box, g))
  }

  predicate NoDividerThrough(f: SeqFrame, g: Rect) {
    forall e :: 0 <= e < |f.dividers| ==> !(f.dividers[e].y >= g.y && f.dividers[e].y <= g.y + g.h)
  }

  /** A later frame either clears f or sits inside it. */
  predicate Nests(f: SeqFrame, g: SeqFrame) {
    Overlaps(f.box, g.box) ==>
      && Contains(Inset(f.box, NEST_INSET), g.box)
      && NoDividerThrough(f, g.box)
      && TextsClearOf(f, g.box)
  }

  /** The texts a message, a frame or a note shows. */
  function MessageTexts(messages: seq<SeqMessage>): seq<Rect> {
    if messages == [] then []
    else
      var m := messages[|messages| - 1];
      MessageTexts(messages[..|messages| - 1]) + if m.caption.Some? then [m.caption.value.box] else []
  }

  function DividerTexts(dividers: seq<FrameDivider>): seq<Rect> {
    if dividers == [] then []
    else
      var d := dividers[|dividers| - 1];
      DividerTexts(dividers[..|dividers| - 1]) + if d.caption.Some? then [d.caption.value.box] else []
  }

  function FrameTexts(frames: seq<SeqFrame>): seq<Rect> {
    if frames == [] then []
    else
      var f := frames[|frames| - 1];
      FrameTexts(frames[..|frames| - 1]) + ([f.title] + DividerTexts(f.dividers))
  }

  function NoteBoxes(notes: seq<SeqNote>): seq<Rect> {
    MapSeq((n: SeqNote) => n.box, notes)
  }

  function Texts(l: SequenceLayout): seq<Rect> {
    MessageTexts(l.messages) + FrameTexts(l.frames) + NoteBoxes(l.notes)
  }

  function AllBoxes(l: SequenceLayout): seq<Rect> {
    MapSeq((a: SeqActor) => a.box, l.actors) + NoteBoxes(l.notes) + MapSeq((f: SeqFrame) => f.box, l.frames) + Texts(l)
  }

  predicate Inside(r: Rect, width: real, height: real) {
    !(r.x < 0.0 || r.y < 0.0 || r.x + r.w > width || r.y + r.h > height)
  }

  /** A layout nothing is wrong with. */
  predicate Clean(adv: Advance, l: SequenceLayout) {
    && (forall i :: 0 <= i < |l.actors| ==> ActorFits(adv, l.actors[i]))
    && (forall i :: 0 <= i < |l.notes| ==> NoteFits(adv, l.notes[i]))
    && (forall i :: 0 <= i < |l.messages| ==> MessageReads(l.messages[i], l.lifelines))
    && FramesClean(l.frames)
    && (forall i :: 0 <= i < |l.notes| ==> NoteReads(l.notes[i], l.lifelines))
    && TextsClean(Texts(l), l.actors)
    && (forall i :: 0 <= i < |AllBoxes(l)| ==> Inside(AllBoxes(l)[i], l.width, l.height))
  }

  predicate FrameClean(frames: seq<SeqFrame>, i: nat)
    requires i < |frames|
  {
    && TitleFits(frames[i])
    && (forall j :: 0 <= j < |frames[i].dividers| ==> DividerClear(frames[i], j))
    && (forall k :: i < k < |frames| ==> Nests(frames[i], frames[k]))
  }

  predicate FramesClean(frames: seq<SeqFrame>) {
    forall i :: 0 <= i < |frames| ==> FrameClean(frames, i)
  }

  predicate TextClean(texts: seq<Rect>, actors: seq<SeqActor>, i: nat)
    requires i < |texts|
  {
    && (forall a :: 0 <= a < |actors| ==> !Overlaps(texts[i], actors[a].box))
    && (forall k :: i < k < |texts| ==> !Overlaps(texts[i], texts[k]))
  }

  predicate TextsClean(texts: seq<Rect>, actors: seq<SeqActor>) {
    forall i :: 0 <= i < |texts| ==> TextClean(texts, actors, i)
  }

  // ---- the check ----

  method Overflowing(adv: Advance, lines: seq<string>, size: Size, face: Face, room: real, finding: Finding)
    returns (out: seq<Finding>)
    ensures out == [] <==> LinesFit(adv, lines, size, face, room)
  {
    out := [];
    for i := 0 to |lines|
      invariant out == [] <==> LinesFit(adv, lines[..i], size, face, room)
    {
      var w := MeasureText(adv, lines[i], size, face);
      if w > room {
        out := out + [finding];
      }
      assert forall k :: 0 <= k < i ==> lines[..i + 1][k] == lines[..i][k];
      assert lines[..i + 1][i] == lines[i];
    }
    assert lines[..|lines|] == lines;
  }

  method CrossedLifelines(r: Rect, own: string, lifelines: seq<SeqLifeline>, finding: nat -> Finding)
    returns (out: seq<Finding>)
    ensures out == [] <==> ClearOfLifelines(r, own, lifelines)
  {
    out := [];
    for i := 0 to |lifelines|
      invariant out == [] <==> forall k :: 0 <= k < i && lifelines[k].id != own ==> !SpansLifeline(r, lifelines[k])
    {
      if lifelines[i].id != own && SpansLifeline(r, lifelines[i]) {
        out := out + [finding(i)];
      }
    }
  }

  method CheckMessage(m: SeqMessage, at: nat, lifelines: seq<SeqLifeline>) returns (out: seq<Finding>)
    ensures out == [] <==> MessageReads(m, lifelines)
  {
    out := [];
    if m.caption.None? {
      return;
    }
    var r := m.caption.value.box;
    if exists i :: 1 <= i < |m.points| && !Clear(r, m.points[i - 1], m.points[i], MIN_LABEL_GAP) {
      out := out + [NearOwnLine(at)];
    }
    if m.self {
      var more := CrossedLifelines(r, m.from, lifelines, (i: nat) => LoopOnLifeline(at, i));
      out := out + more;
    }
  }

  method CheckFrame(frames: seq<SeqFrame>, i: nat) returns (out: seq<Finding>)
    requires i < |frames|
    ensures out == [] <==> FrameClean(frames, i)
  {
    var f := frames[i];
    out := [];
    if f.title.x + f.title.w > f.box.x + f.box.w {
      out := out + [TitleOverflow(i)];
    }
    for j := 0 to |f.dividers|
      invariant out == [] <==> TitleFits(f) && forall e :: 0 <= e < j ==> DividerClear(f, e)
    {
      if !DividerClear(f, j) {
        out := out + [DividerOnText(i, j)];
      }
    }
    for k := i + 1 to |frames|
      invariant out == [] <==> && TitleFits(f) && (forall e :: 0 <= e < |f.dividers| ==> DividerClear(f, e))
                               && forall g :: i < g < k ==> Nests(f, frames[g])
    {
      var g := frames[k].box;
      if !Overlaps(f.box, g) {
        continue;
      }
      if !Contains(Inset(f.box, NEST_INSET), g) {
        out := out + [FramesTangled(i, k)];
        continue;
      }
      if !NoDividerThrough(f, g) {
        out := out + [DividerThroughFrame(i, k)];
      }
      if !TextsClearOf(f, g) {
        out := out + [FrameUnderText(i, k)];
      }
    }
  }

  method CheckText(texts: seq<Rect>, actors: seq<SeqActor>, i: nat) returns (out: seq<Finding>)
    requires i < |texts|
    ensures out == [] <==> TextClean(texts, actors, i)
  {
    out := [];
    for a := 0 to |actors|
      invariant out == [] <==> forall b :: 0 <= b < a ==> !Overlaps(texts[i], actors[b].box)
    {
      if Overlaps(texts[i], actors[a].box) {
        out := out + [TextOnActor(i, a)];
      }
    }
    for k := i + 1 to |texts|
      invariant out == [] <==> && (forall a :: 0 <= a < |actors| ==> !Overlaps(texts[i], actors[a].box))
                               && forall u :: i < u < k ==> !Overlaps(texts[i], texts[u])
    {
      if Overlaps(texts[i], texts[k]) {
        out := out + [TextsOverlap(i, k)];
      }
    }
  }

  /** Finds nothing exactly when the layout is clean. */
  method CheckSequence(adv: Advance, l: SequenceLayout) returns (out: seq<Finding>)
    ensures out == [] <==> Clean(adv, l)
  {
    out := [];
    for i := 0 to |l.actors|
      invariant out == [] <==> forall k :: 0 <= k < i ==> ActorFits(adv, l.actors[k])
    {
      var a := l.actors[i];
      var more := Overflowing(adv, a.lines, a.size, a.face, a.box.w - 2.0 * BOX_PAD, ActorOverflow(i));
      out := out + more;
    }
    ghost var actorsFit := out == [];
    for i := 0 to |l.notes|
      invariant out == [] <==> actorsFit && forall k :: 0 <= k < i ==> NoteFits(adv, l.notes[k])
    {
      var more := Overflowing(adv, l.notes[i].lines, RAMP_TEXT, Sans, l.notes[i].box.w - 2.0 * NOTE_PAD,
                              NoteOverflow(i));
      out := out + more;
    }
    ghost var fits := out == [];
    for i := 0 to |l.messages|
      invariant out == [] <==> fits && forall k :: 0 <= k < i ==> MessageReads(l.messages[k], l.lifelines)
    {
      var more := CheckMessage(l.messages[i], i, l.lifelines);
      out := out + more;
    }
    ghost var messagesRead := out == [];
    for i := 0 to |l.frames|
      invariant out == [] <==> messagesRead && forall k :: 0 <= k < i ==> FrameClean(l.frames, k)
    {
      var more := CheckFrame(l.frames, i);
      out := out + more;
    }
    ghost var framesClean := out == [];
    for i := 0 to |l.notes|
      invariant out == [] <==> framesClean && forall k :: 0 <= k < i ==> NoteReads(l.notes[k], l.lifelines)
    {
      if l.notes[i].beside.Some? {
        var more := CrossedLifelines(l.notes[i].box, l.notes[i].beside.value, l.lifelines,
                                     (k: nat) => NoteOnLifeline(i, k));
        out := out + more;
      }
    }
    ghost var notesRead := out == [];
    var texts := Texts(l);
    for i := 0 to |texts|
      invariant out == [] <==> notesRead && forall k :: 0 <= k < i ==> TextClean(texts, l.actors, k)
    {
      var more := CheckText(texts, l.actors, i);
      out := out + more;
    }
    ghost var textsClean := out == [];
    var all := AllBoxes(l);
    for i := 0 to |all|
      invariant out == [] <==> textsClean && forall k :: 0 <= k < i ==> Inside(all[k], l.width, l.height)
    {
      var r := all[i];
      if r.x < 0.0 || r.y < 0.0 || r.x + r.w > l.width || r.y + r.h > l.height {
        out := out + [PastCanvas(i)];
      }
    }
  }
}
