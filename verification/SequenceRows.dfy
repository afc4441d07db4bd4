// What placing rows keeps: texts in bands of their own, frames apart or nested,
// dividers clear of the texts above them.
module SequenceRows {
  import opened Geometry
  import opened SequenceIR
  import opened SequenceLayout
  import opened SequenceCheck

  // ---- texts: one band of height each ----

  function Foot(r: Rect): real {
    r.y + r.h
  }

  predicate Stacked(a: Rect, b: Rect) {
    Foot(a) <= b.y || Foot(b) <= a.y
  }

  /** No two boxes of a list share a height. */
  predicate Banded(boxes: seq<Rect>) {
    forall i, j :: 0 <= i < j < |boxes| ==> Stacked(boxes[i], boxes[j])
  }

  /** Every box of a list lies between two heights. */
  predicate Within(boxes: seq<Rect>, top: real, foot: real) {
    forall i :: 0 <= i < |boxes| ==> top <= boxes[i].y && Foot(boxes[i]) <= foot
  }

  /** The same boxes but for where they stand across. */
  predicate SameBands(a: seq<Rect>, b: seq<Rect>) {
    |a| == |b| && forall i :: 0 <= i < |a| ==> a[i].y == b[i].y && a[i].h == b[i].h
  }

  /** more is boxes with the boxes of extra put in somewhere. */
  predicate Grown(boxes: seq<Rect>, extra: seq<Rect>, more: seq<Rect>, at: nat) {
    at <= |boxes| && |more| == |boxes| + |extra| && SameBands(more, boxes[..at] + extra + boxes[at..])
  }

  lemma BandedGrows(boxes: seq<Rect>, extra: seq<Rect>, more: seq<Rect>, at: nat, top: real, foot: real, foot': real)
    requires Banded(boxes) && Within(boxes, top, foot)
    requires |extra| <= 1 && Within(extra, foot, foot') && top <= foot <= foot'
    requires Grown(boxes, extra, more, at)
    ensures Banded(more) && Within(more, top, foot')
  {
    var mid := boxes[..at] + extra + boxes[at..];
    if extra == [] {
      assert mid == boxes;
    } else {
      assert forall i :: 0 <= i < |mid| ==>
               mid[i] == if i < at then boxes[i] else if i == at then extra[0] else boxes[i - 1];
    }
  }

  /** Growing one part of a list grows the list. */
  lemma GrownInside(a: seq<Rect>, b: seq<Rect>, c: seq<Rect>, extra: seq<Rect>, more: seq<Rect>, at: nat)
    requires Grown(b, extra, more, at)
    ensures Grown(a + b + c, extra, a + more + c, |a| + at)
  {
    var whole := a + b + c;
    assert whole[..|a| + at] == a + b[..at];
    assert whole[|a| + at..] == b[at..] + c;
    assert a + b[..at] + extra + (b[at..] + c) == a + (b[..at] + extra + b[at..]) + c;
  }

  function StateTexts(s: State): seq<Rect> {
    MessageTexts(s.messages) + FrameTexts(s.frames) + NoteBoxes(s.notes)
  }

  lemma FrameTextsLast(frames: seq<SeqFrame>)
    requires frames != []
    ensures var last := frames[|frames| - 1];
            FrameTexts(frames) == FrameTexts(frames[..|frames| - 1]) + ([last.title] + DividerTexts(last.dividers))
  {
    hide DividerTexts;
  }

  lemma {:induction false} FrameTextsUpdate(frames: seq<SeqFrame>, k: nat, f: SeqFrame, extra: seq<Rect>)
      returns (at: nat)
    requires k < |frames| && |extra| <= 1
    requires Grown([frames[k].title] + DividerTexts(frames[k].dividers), extra, [f.title] + DividerTexts(f.dividers),
                   1 + |DividerTexts(frames[k].dividers)|)
    ensures Grown(FrameTexts(frames), extra, FrameTexts(frames[k := f]), at)
    decreases |frames|
  {
    hide Grown, DividerTexts, FrameTexts;
    var last := |frames| - 1;
    var init := frames[..last];
    var own := [frames[last].title] + DividerTexts(frames[last].dividers);
    FrameTextsLast(frames);
    FrameTextsLast(frames[k := f]);
    if k == last {
      assert frames[k := f][..last] == init;
      at := |FrameTexts(init)| + |own|;
      GrownInside(FrameTexts(init), own, [], extra, [f.title] + DividerTexts(f.dividers), |own|);
      assert FrameTexts(frames) == FrameTexts(init) + own + [];
      assert FrameTexts(frames[k := f]) == FrameTexts(init) + ([f.title] + DividerTexts(f.dividers)) + [];
    } else {
      assert frames[k := f][..last] == init[k := f];
      at := FrameTextsUpdate(init, k, f, extra);
      GrownInside([], FrameTexts(init), own, extra, FrameTexts(init[k := f]), at);
      assert FrameTexts(frames) == [] + FrameTexts(init) + own;
      assert FrameTexts(frames[k := f]) == [] + FrameTexts(init[k := f]) + own;
    }
  }

  lemma GrownAtEnd(boxes: seq<Rect>, extra: seq<Rect>)
    ensures Grown(boxes, extra, boxes + extra, |boxes|)
  {
    assert boxes[..|boxes|] + extra + boxes[|boxes|..] == boxes + extra;
  }

  lemma {:induction false} MovedDividerTexts(dividers: seq<FrameDivider>, moved: seq<FrameDivider>, x: real)
    requires |moved| == |dividers| && forall i :: 0 <= i < |dividers| ==> moved[i] == MoveDivider(dividers[i], x)
    ensures SameBands(DividerTexts(dividers), DividerTexts(moved))
  {
    if dividers != [] {
      MovedDividerTexts(dividers[..|dividers| - 1], moved[..|moved| - 1], x);
    }
  }

  /** The one text a row adds, if any: below every text so far, above the next row. */
  function RowTexts(env: Env, s: State, r: Row): seq<Rect>
    requires env.Valid() && s.Valid(env) && KnownRow(env.actors, r)
  {
    match r
    case Message(_, _, _, _, _) =>
      var m := PlaceMessage(env, s.y, r, s.stack != []);
      if m.caption.Some? then [m.caption.value.box] else []
    case Note(_, _, _, _) => [PlaceNote(env, s.y, r).box]
    case Frame(_, _) => [OpenFrame(env.fonts, s.y, r).title]
    case Divider(_, _) =>
      if s.stack == [] then []
      else
        var d := PlaceDivider(env.fonts, DividerY(s.y, s.stack[|s.stack| - 1].floor), r);
        if d.caption.Some? then [d.caption.value.box] else []
    case End => []
  }

  lemma FirstGrows(a: seq<Rect>, rest: seq<Rect>, extra: seq<Rect>)
    ensures Grown(a + rest, extra, a + extra + rest, |a|)
  {
    assert (a + rest)[..|a|] == a && (a + rest)[|a|..] == rest;
  }

  lemma NothingGrows(boxes: seq<Rect>)
    ensures Grown(boxes, [], boxes, 0)
  {
    assert boxes[..0] + [] + boxes[0..] == boxes;
  }

  lemma MessageTextsGrow(env: Env, s: State, r: Row)
    requires env.Valid() && s.Valid(env) && KnownRow(env.actors, r) && r.Message?
    ensures Grown(StateTexts(s), RowTexts(env, s, r), StateTexts(PlaceRow(env, s, r)), |MessageTexts(s.messages)|)
  {
    var ms, fs, ns := MessageTexts(s.messages), FrameTexts(s.frames), NoteBoxes(s.notes);
    var extra := RowTexts(env, s, r);
    assert MessageTexts(PlaceRow(env, s, r).messages) == ms + extra by {
      assert PlaceRow(env, s, r).messages[..|s.messages|] == s.messages;
    }
    FirstGrows(ms, fs + ns, extra);
    Regroup(ms, fs, ns);
    Regroup(ms + extra, fs, ns);
  }

  lemma Regroup(a: seq<Rect>, b: seq<Rect>, c: seq<Rect>)
    ensures a + b + c == a + (b + c)
  {
  }

  lemma NoteTextsGrow(env: Env, s: State, r: Row)
    requires env.Valid() && s.Valid(env) && KnownRow(env.actors, r) && r.Note?
    ensures Grown(StateTexts(s), RowTexts(env, s, r), StateTexts(PlaceRow(env, s, r)), |StateTexts(s)|)
  {
    GrownAtEnd(StateTexts(s), RowTexts(env, s, r));
    assert NoteBoxes(PlaceRow(env, s, r).notes) == NoteBoxes(s.notes) + RowTexts(env, s, r);
    assert StateTexts(PlaceRow(env, s, r)) == StateTexts(s) + RowTexts(env, s, r);
  }

  /** Growing the frames' texts alone. */
  lemma FramePartGrows(s: State, s': State, extra: seq<Rect>, at: nat)
    requires s'.messages == s.messages && s'.notes == s.notes
    requires Grown(FrameTexts(s.frames), extra, FrameTexts(s'.frames), at)
    ensures Grown(StateTexts(s), extra, StateTexts(s'), |MessageTexts(s.messages)| + at)
  {
    GrownInside(MessageTexts(s.messages), FrameTexts(s.frames), NoteBoxes(s.notes), extra, FrameTexts(s'.frames), at);
  }

  lemma FrameTextsGrow(env: Env, s: State, r: Row) returns (at: nat)
    requires env.Valid() && s.Valid(env) && r.Frame?
    ensures Grown(StateTexts(s), RowTexts(env, s, r), StateTexts(PlaceRow(env, s, r)), at)
  {
    var s' := PlaceRow(env, s, r);
    assert s'.frames[..|s.frames|] == s.frames;
    assert FrameTexts(s'.frames) == FrameTexts(s.frames) + RowTexts(env, s, r);
    GrownAtEnd(FrameTexts(s.frames), RowTexts(env, s, r));
    at := |FrameTexts(s.frames)|;
    FramePartGrows(s, s', RowTexts(env, s, r), at);
    at := |MessageTexts(s.messages)| + at;
  }

  lemma DividerTextsGrow(env: Env, s: State, r: Row) returns (at: nat)
    requires env.Valid() && s.Valid(env) && r.Divider? && s.stack != []
    ensures Grown(StateTexts(s), RowTexts(env, s, r), StateTexts(PlaceRow(env, s, r)), at)
  {
    var s' := PlaceRow(env, s, r);
    var extra := RowTexts(env, s, r);
    var k := s.stack[|s.stack| - 1].f;
    var f, f' := s.frames[k], s'.frames[k];
    assert f'.dividers[..|f.dividers|] == f.dividers;
    var own := [f.title] + DividerTexts(f.dividers);
    assert [f'.title] + DividerTexts(f'.dividers) == own + extra;
    GrownAtEnd(own, extra);
    at := FrameTextsUpdate(s.frames, k, f', extra);
    FramePartGrows(s, s', extra, at);
    at := |MessageTexts(s.messages)| + at;
  }

  lemma EndMoves(env: Env, s: State)
    requires env.Valid() && s.Valid(env) && s.stack != []
    ensures var s', k := PlaceRow(env, s, End), s.stack[|s.stack| - 1].f;
            && |s'.frames| == |s.frames| && s'.frames == s.frames[k := s'.frames[k]] && s'.messages == s.messages
            && s'.notes == s.notes
            && |s'.frames[k].dividers| == |s.frames[k].dividers|
            && s'.frames[k].title.y == s.frames[k].title.y && s'.frames[k].title.h == s.frames[k].title.h
            && forall i :: 0 <= i < |s.frames[k].dividers| ==>
                 s'.frames[k].dividers[i] == MoveDivider(s.frames[k].dividers[i], s'.frames[k].title.x)
  {
    hide Hold;
  }

  lemma EndTextsGrow(env: Env, s: State) returns (at: nat)
    requires env.Valid() && s.Valid(env) && s.stack != []
    ensures Grown(StateTexts(s), [], StateTexts(PlaceRow(env, s, End)), at)
  {
    hide PlaceRow, Grown, DividerTexts, FrameTexts, StateTexts, MessageTexts;
    var s' := PlaceRow(env, s, End);
    EndMoves(env, s);
    var k := s.stack[|s.stack| - 1].f;
    var f, f' := s.frames[k], s'.frames[k];
    SameTextsGrow(f, f');
    at := FrameTextsUpdate(s.frames, k, f', []);
    FramePartGrows(s, s', [], at);
    at := |MessageTexts(s.messages)| + at;
  }

  lemma SameTextsGrow(f: SeqFrame, f': SeqFrame)
    requires |f'.dividers| == |f.dividers| && f'.title.y == f.title.y && f'.title.h == f.title.h
    requires forall i :: 0 <= i < |f.dividers| ==> f'.dividers[i] == MoveDivider(f.dividers[i], f'.title.x)
    ensures Grown([f.title] + DividerTexts(f.dividers), [], [f'.title] + DividerTexts(f'.dividers),
                  1 + |DividerTexts(f.dividers)|)
  {
    hide DividerTexts;
    MovedDividerTexts(f.dividers, f'.dividers, f'.title.x);
    var own := [f.title] + DividerTexts(f.dividers);
    assert own[..|own|] + [] + own[|own|..] == own;
  }

  lemma RowTextsGrow(env: Env, s: State, r: Row) returns (at: nat)
    requires env.Valid() && s.Valid(env) && KnownRow(env.actors, r)
    ensures Grown(StateTexts(s), RowTexts(env, s, r), StateTexts(PlaceRow(env, s, r)), at)
  {
    match r {
      case Message(_, _, _, _, _) =>
        MessageTextsGrow(env, s, r);
        at := |MessageTexts(s.messages)|;
      case Note(_, _, _, _) =>
        NoteTextsGrow(env, s, r);
        at := |StateTexts(s)|;
      case Frame(_, _) =>
        at := FrameTextsGrow(env, s, r);
      case Divider(_, _) =>
        if s.stack == [] {
          at := 0;
          NothingGrows(StateTexts(s));
        } else {
          at := DividerTextsGrow(env, s, r);
        }
      case End =>
        if s.stack == [] {
          at := 0;
          NothingGrows(StateTexts(s));
        } else {
          at := EndTextsGrow(env, s);
        }
    }
  }

  /** Where rows start: nothing drawn, no frame open. */
  predicate TextsOk(s: State, top: real) {
    Banded(StateTexts(s)) && Within(StateTexts(s), top, s.y - 8.0) && top + 8.0 <= s.y
  }

  lemma RowTextBand(env: Env, s: State, r: Row)
    requires env.Valid() && s.Valid(env) && KnownRow(env.actors, r)
    ensures var s' := PlaceRow(env, s, r);
            s.y <= s'.y && Within(RowTexts(env, s, r), s.y - 8.0, s'.y - 8.0)
  {
  }

  /** A row's text stays in a band of its own. */
  lemma TextsKept(env: Env, s: State, r: Row, top: real)
    requires env.Valid() && s.Valid(env) && KnownRow(env.actors, r) && TextsOk(s, top)
    ensures TextsOk(PlaceRow(env, s, r), top)
  {
    var s' := PlaceRow(env, s, r);
    RowTextBand(env, s, r);
    var at := RowTextsGrow(env, s, r);
    BandedGrows(StateTexts(s), RowTexts(env, s, r), StateTexts(s'), at, top, s.y - 8.0, s'.y - 8.0);
  }
}
