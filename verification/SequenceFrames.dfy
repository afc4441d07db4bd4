// What placing rows keeps about frames: every two are apart, or one sits inside
// the other by the inset, clear of its texts and dividers.
module SequenceFrames {
  import opened Geometry
  import opened SequenceIR
  import opened SequenceLayout
  import opened SequenceRows

  /** Closed frames have a height, open ones none yet. */
  predicate Shut(f: SeqFrame) {
    f.box.h > 0.0
  }

  /** The stack lists the open frames, outermost first. */
  predicate StackOk(s: State) {
    && (forall d, e :: 0 <= d < e < |s.stack| ==> s.stack[d].f < s.stack[e].f)
    && (forall d :: 0 <= d < |s.stack| ==> s.stack[d].f < |s.frames| && !Shut(s.frames[s.stack[d].f]))
    && (forall i :: 0 <= i < |s.frames| && !Shut(s.frames[i]) ==> OnStack(s.stack, i))
  }

  predicate OnStack(stack: seq<Open>, i: nat) {
    exists d :: 0 <= d < |stack| && stack[d].f == i
  }

  /** One divider's own shape, and how far it keeps from the row below. */
  predicate DividerOk(d: FrameDivider, y: real) {
    d.y + 12.0 <= y
    && (d.caption.Some? ==> d.caption.value.box.y == d.y + DIVIDER_GAP && d.caption.value.box.h >= COND_LINE
                            && Foot(d.caption.value.box) + 12.0 <= y)
  }

  /** Divider or floor at y is clear of the title and of the first n divider texts. */
  predicate ClearBelow(f: SeqFrame, n: nat, y: real)
    requires n <= |f.dividers|
  {
    && Foot(f.title) + DIVIDER_GAP <= y
    && forall e :: 0 <= e < n && f.dividers[e].caption.Some? ==>
         Foot(f.dividers[e].caption.value.box) + DIVIDER_GAP <= y
  }

  /** A frame's texts and dividers, one under another, above the next row. */
  predicate FrameOk(f: SeqFrame, y: real) {
    && f.box.h >= 0.0
    && f.title.y == f.box.y + TITLE_PAD && f.title.h >= COND_LINE && Foot(f.title) + TITLE_PAD <= y
    && (forall e :: 0 <= e < |f.dividers| ==> DividerOk(f.dividers[e], y))
    && (forall e :: 0 <= e < |f.dividers| ==> ClearBelow(f, e, f.dividers[e].y))
    && (Shut(f) ==> Snug(f) && Foot(f.box) + ROW_GAP <= y)
  }

  /** A closed frame holds its title and its dividers' texts by the inset. */
  predicate Snug(f: SeqFrame) {
    && f.title.x == f.box.x + TITLE_INSET && f.title.x + f.title.w + TITLE_INSET <= f.box.x + f.box.w
    && (forall e :: 0 <= e < |f.dividers| && f.dividers[e].caption.Some?
                    ==> var r := f.dividers[e].caption.value.box;
                        r.x == f.box.x + TITLE_INSET && r.x + r.w + TITLE_INSET <= f.box.x + f.box.w)
  }

  predicate Before(d: FrameDivider, g: Rect) {
    d.y < g.y && (d.caption.Some? ==> Foot(d.caption.value.box) <= g.y)
  }

  predicate After(d: FrameDivider, g: Rect) {
    d.y > Foot(g) && (d.caption.Some? ==> d.caption.value.box.y >= Foot(g))
  }

  /** g stands under f's title, and every divider of f is above or below it. */
  predicate Beside(f: SeqFrame, g: Rect) {
    && f.box.y + NEST_INSET <= g.y && Foot(f.title) <= g.y
    && (forall e :: 0 <= e < |f.dividers| ==> Before(f.dividers[e], g) || After(f.dividers[e], g))
  }

  predicate AllBefore(f: SeqFrame, g: Rect) {
    forall e :: 0 <= e < |f.dividers| ==> Before(f.dividers[e], g)
  }

  predicate PairOk(f: SeqFrame, g: SeqFrame) {
    if !Shut(f) then Beside(f, g.box) && (!Shut(g) ==> AllBefore(f, g.box))
    else Foot(f.box) <= g.box.y || (Shut(g) && Beside(f, g.box) && Contains(Inset(f.box, NEST_INSET), g.box))
  }

  /** Some box of a list covers r from side to side. */
  predicate HeldBy(boxes: seq<Rect>, r: Rect) {
    exists b <- boxes :: b.x <= r.x && r.x + r.w <= b.x + b.w
  }

  /** Stack entry d is the innermost open frame around frame j. */
  predicate Around(stack: seq<Open>, d: nat, j: nat)
    requires d < |stack|
  {
    stack[d].f < j && (d + 1 < |stack| ==> j < stack[d + 1].f)
  }

  predicate HeldOk(s: State) {
    forall d, j :: 0 <= d < |s.stack| && 0 <= j < |s.frames| && Shut(s.frames[j]) && Around(s.stack, d, j)
                   ==> HeldBy(s.stack[d].boxes, s.frames[j].box)
  }

  predicate FloorsOk(s: State) {
    forall d :: 0 <= d < |s.stack| ==>
      s.stack[d].f < |s.frames|
      && ClearBelow(s.frames[s.stack[d].f], |s.frames[s.stack[d].f].dividers|, s.stack[d].floor)
  }

  predicate FramesOk(s: State) {
    && StackOk(s) && FloorsOk(s) && HeldOk(s)
    && (forall i :: 0 <= i < |s.frames| ==> FrameOk(s.frames[i], s.y))
    && (forall i, j :: 0 <= i < j < |s.frames| ==> PairOk(s.frames[i], s.frames[j]))
  }

  lemma NoFramesOk(y: real)
    ensures FramesOk(State(y, [], [], [], []))
  {
  }

  // ---- rows that leave the frames as they are ----

  lemma HoldShape(stack: seq<Open>, cols: set<nat>, boxes: seq<Rect>)
    ensures var more := Hold(stack, cols, boxes);
            && |more| == |stack|
            && (forall d :: 0 <= d < |stack| ==> more[d].f == stack[d].f && more[d].floor == stack[d].floor)
            && (forall d :: 0 <= d < |stack| ==> forall b <- stack[d].boxes :: b in more[d].boxes)
  {
  }

  lemma HoldKeeps(s: State, s': State, cols: set<nat>, boxes: seq<Rect>)
    requires FramesOk(s) && s'.frames == s.frames && s'.stack == Hold(s.stack, cols, boxes) && s.y <= s'.y
    ensures FramesOk(s')
  {
    hide PairOk, FrameOk, Hold;
    HoldShape(s.stack, cols, boxes);
    forall i | 0 <= i < |s'.frames| && !Shut(s'.frames[i]) ensures OnStack(s'.stack, i) {
      var d :| 0 <= d < |s.stack| && s.stack[d].f == i;
      assert s'.stack[d].f == i;
    }
    forall i | 0 <= i < |s'.frames| ensures FrameOk(s'.frames[i], s'.y) {
      FrameOkLater(s.frames[i], s.y, s'.y);
    }
    HoldKeepsHeld(s, s');
  }

  lemma HoldKeepsHeld(s: State, s': State)
    requires HeldOk(s) && s'.frames == s.frames && |s'.stack| == |s.stack|
    requires forall d :: 0 <= d < |s.stack| ==> s'.stack[d].f == s.stack[d].f
    requires forall d :: 0 <= d < |s.stack| ==> forall b <- s.stack[d].boxes :: b in s'.stack[d].boxes
    ensures HeldOk(s')
  {
    forall d, j | 0 <= d < |s'.stack| && 0 <= j < |s'.frames| && Shut(s'.frames[j]) && Around(s'.stack, d, j)
      ensures HeldBy(s'.stack[d].boxes, s'.frames[j].box)
    {
      assert Around(s.stack, d, j);
      var b :| b in s.stack[d].boxes && b.x <= s.frames[j].box.x && s.frames[j].box.x + s.frames[j].box.w <= b.x + b.w;
      assert b in s'.stack[d].boxes;
    }
  }

  // ---- a frame opens ----

  lemma OpenKeeps(env: Env, s: State, r: Row)
    requires env.Valid() && s.Valid(env) && r.Frame? && FramesOk(s)
    ensures FramesOk(PlaceRow(env, s, r))
  {
    var s' := PlaceRow(env, s, r);
    var n := |s.frames|;
    var f := s'.frames[n];
    assert s'.stack == s.stack + [s'.stack[|s.stack|]] && s'.stack[|s.stack|].f == n && s'.frames == s.frames + [f];
    assert FrameOk(f, s'.y) && !Shut(f) && f.box.y == s.y && s.y <= s'.y;
    assert ClearBelow(f, 0, s'.stack[|s.stack|].floor) && f.dividers == [];
    hide PlaceRow, PutFrame;
    OpenKeepsStack(s, s');
    hide StackOk, FloorsOk;
    forall i, j | 0 <= i < j < |s'.frames| ensures PairOk(s'.frames[i], s'.frames[j]) {
      if j == n {
        NewPair(s.frames[i], f, s.y);
      } else {
        assert PairOk(s.frames[i], s.frames[j]);
      }
    }
    forall i | 0 <= i < |s'.frames| ensures FrameOk(s'.frames[i], s'.y) {
      if i < n {
        FrameOkLater(s.frames[i], s.y, s'.y);
      }
    }
  }

  /** A frame opened below all that came before. */
  lemma NewPair(g: SeqFrame, f: SeqFrame, y: real)
    requires FrameOk(g, y) && !Shut(f) && f.box.y == y
    ensures PairOk(g, f)
  {
    forall e | 0 <= e < |g.dividers| ensures Before(g.dividers[e], f.box) {
      assert DividerOk(g.dividers[e], y);
    }
  }

  lemma OpenKeepsStack(s: State, s': State)
    requires StackOk(s) && FloorsOk(s) && HeldOk(s) && |s'.frames| == |s.frames| + 1 && |s'.stack| == |s.stack| + 1
    requires s'.frames[..|s.frames|] == s.frames && s'.stack[..|s.stack|] == s.stack
    requires var f, top := s'.frames[|s.frames|], s'.stack[|s.stack|];
             !Shut(f) && top.f == |s.frames| && ClearBelow(f, |f.dividers|, top.floor)
    ensures StackOk(s') && FloorsOk(s') && HeldOk(s')
  {
    hide ClearBelow;
    var n := |s.frames|;
    assert forall d :: 0 <= d < |s.stack| ==> s'.stack[d] == s.stack[d];
    assert forall i :: 0 <= i < n ==> s'.frames[i] == s.frames[i];
    forall i | 0 <= i < |s'.frames| && !Shut(s'.frames[i]) ensures OnStack(s'.stack, i) {
      if i < n {
        var d :| 0 <= d < |s.stack| && s.stack[d].f == i;
        assert s'.stack[d].f == i;
      } else {
        assert s'.stack[|s.stack|].f == i;
      }
    }
    forall d, j | 0 <= d < |s'.stack| && 0 <= j < |s'.frames| && Shut(s'.frames[j]) && Around(s'.stack, d, j)
      ensures HeldBy(s'.stack[d].boxes, s'.frames[j].box)
    {
      assert Around(s.stack, d, j);
    }
  }

  lemma FrameOkLater(f: SeqFrame, y: real, y': real)
    requires FrameOk(f, y) && y <= y'
    ensures FrameOk(f, y')
  {
    forall e | 0 <= e < |f.dividers| ensures DividerOk(f.dividers[e], y') {
      assert DividerOk(f.dividers[e], y);
    }
  }

  // ---- a divider splits the innermost frame ----

  /** Every frame opened after the innermost open one is closed. */
  lemma InnerShut(s: State, j: nat)
    requires StackOk(s) && s.stack != [] && s.stack[|s.stack| - 1].f < j < |s.frames|
    ensures Shut(s.frames[j])
  {
    if !Shut(s.frames[j]) {
      var d :| 0 <= d < |s.stack| && s.stack[d].f == j;
      assert false;
    }
  }

  lemma DividerKeepsFrame(env: Env, s: State, r: Row)
    requires env.Valid() && s.Valid(env) && r.Divider? && s.stack != [] && FramesOk(s)
    ensures var s' := PlaceRow(env, s, r);
            var open := s.stack[|s.stack| - 1];
            var d := PlaceDivider(env.fonts, DividerY(s.y, open.floor), r);
            var f, f' := s.frames[open.f], s'.frames[open.f];
            && f' == f.(dividers := f.dividers + [d]) && s.y <= s'.y && FrameOk(f', s'.y)
            && ClearBelow(f', |f'.dividers|, s'.stack[|s.stack| - 1].floor)
            && d.y >= s.y - ROW_GAP / 2.0 && (d.caption.Some? ==> d.caption.value.box.y >= d.y)
  {
    var s' := PlaceRow(env, s, r);
    var open := s.stack[|s.stack| - 1];
    var f, f' := s.frames[open.f], s'.frames[open.f];
    assert FrameOk(f, s.y) && ClearBelow(f, |f.dividers|, open.floor);
    forall e | 0 <= e < |f'.dividers| ensures DividerOk(f'.dividers[e], s'.y) && ClearBelow(f', e, f'.dividers[e].y) {
      if e < |f.dividers| {
        assert f'.dividers[e] == f.dividers[e];
        assert DividerOk(f.dividers[e], s.y) && ClearBelow(f, e, f.dividers[e].y);
      }
    }
  }

  lemma DividerKeepsPair(env: Env, s: State, r: Row, i: nat, j: nat)
    requires env.Valid() && s.Valid(env) && r.Divider? && s.stack != [] && FramesOk(s) && i < j < |s.frames|
    ensures PairOk(PlaceRow(env, s, r).frames[i], PlaceRow(env, s, r).frames[j])
  {
    var k := s.stack[|s.stack| - 1].f;
    var f, f' := s.frames[k], PlaceRow(env, s, r).frames[k];
    DividerKeepsFrame(env, s, r);
    assert PairOk(s.frames[i], s.frames[j]);
    if i == k {
      InnerShut(s, j);
      assert FrameOk(s.frames[j], s.y);
      forall e | 0 <= e < |f'.dividers|
        ensures Before(f'.dividers[e], s.frames[j].box) || After(f'.dividers[e], s.frames[j].box)
      {
        if e < |f.dividers| {
          assert f'.dividers[e] == f.dividers[e];
        }
      }
    }
  }

  /** Closed frames stay held while the stack keeps its frames and boxes. */
  lemma StackSame(s: State, s': State)
    requires StackOk(s) && HeldOk(s) && |s'.stack| == |s.stack| && |s'.frames| == |s.frames|
    requires forall d :: 0 <= d < |s.stack| ==> s'.stack[d].f == s.stack[d].f && s'.stack[d].boxes == s.stack[d].boxes
    requires forall i :: 0 <= i < |s.frames| ==> s'.frames[i].box == s.frames[i].box
    ensures StackOk(s') && HeldOk(s')
  {
    forall i | 0 <= i < |s'.frames| && !Shut(s'.frames[i]) ensures OnStack(s'.stack, i) {
      var d :| 0 <= d < |s.stack| && s.stack[d].f == i;
      assert s'.stack[d].f == i;
    }
    forall e, j | 0 <= e < |s'.stack| && 0 <= j < |s'.frames| && Shut(s'.frames[j]) && Around(s'.stack, e, j)
      ensures HeldBy(s'.stack[e].boxes, s'.frames[j].box)
    {
      assert Around(s.stack, e, j);
    }
  }

  lemma DividerKeeps(env: Env, s: State, r: Row)
    requires env.Valid() && s.Valid(env) && r.Divider? && s.stack != [] && FramesOk(s)
    ensures FramesOk(PlaceRow(env, s, r))
  {
    var s' := PlaceRow(env, s, r);
    var k := s.stack[|s.stack| - 1].f;
    DividerKeepsFrame(env, s, r);
    StackSame(s, s');
    assert FloorsOk(s') by {
      forall d | 0 <= d < |s'.stack|
        ensures ClearBelow(s'.frames[s'.stack[d].f], |s'.frames[s'.stack[d].f].dividers|, s'.stack[d].floor)
      {
        if d < |s.stack| - 1 {
          assert s.stack[d].f != k;
        }
      }
    }
    forall i | 0 <= i < |s'.frames| ensures FrameOk(s'.frames[i], s'.y) {
      if i != k {
        FrameOkLater(s.frames[i], s.y, s'.y);
      }
    }
    forall i, j | 0 <= i < j < |s'.frames| ensures PairOk(s'.frames[i], s'.frames[j]) {
      DividerKeepsPair(env, s, r, i, j);
    }
  }

  // ---- the innermost frame closes ----

  /** The frame that closes, and the box it becomes. */
  lemma EndCloses(env: Env, s: State)
    requires env.Valid() && s.Valid(env) && s.stack != []
    ensures PlaceRow(env, s, End) == Close(env, s)
  {
  }

  lemma ClosedSnug(env: Env, s: State)
    requires env.Valid() && s.Valid(env) && s.stack != []
    ensures Snug(PlaceRow(env, s, End).frames[s.stack[|s.stack| - 1].f])
  {
    hide PlaceRow, Hold, FrameXs, BoxesLeft, BoxesRight;
    EndCloses(env, s);
    var open := s.stack[|s.stack| - 1];
    var f, f' := s.frames[open.f], PlaceRow(env, s, End).frames[open.f];
    forall e | 0 <= e < |f'.dividers| && f'.dividers[e].caption.Some?
      ensures var r := f'.dividers[e].caption.value.box;
              r.x == f'.box.x + TITLE_INSET && r.x + r.w + TITLE_INSET <= f'.box.x + f'.box.w
    {
      assert f.dividers[e] in f.dividers;
    }
  }

  lemma ClosedFrame(env: Env, s: State)
    requires env.Valid() && s.Valid(env) && s.stack != [] && FramesOk(s)
    ensures var s' := PlaceRow(env, s, End);
            var open := s.stack[|s.stack| - 1];
            var f, f' := s.frames[open.f], s'.frames[open.f];
            && FrameOk(f', s'.y) && Shut(f')
            && Foot(f'.box) == s.y - 3.0 && s'.y == s.y + 15.0 && f'.box.y == f.box.y && f'.title.y == f.title.y
            && f'.title.h == f.title.h
            && |f'.dividers| == |f.dividers|
            && (forall e :: 0 <= e < |f.dividers| ==> f'.dividers[e] == MoveDivider(f.dividers[e], f'.title.x))
            && (forall b <- open.boxes ::
                f'.box.x <= b.x - TITLE_INSET && b.x + b.w + TITLE_INSET <= f'.box.x + f'.box.w)
  {
    hide PlaceRow, Hold, HeldOk, FloorsOk, PairOk;
    var s' := PlaceRow(env, s, End);
    EndCloses(env, s);
    var open := s.stack[|s.stack| - 1];
    var f, f' := s.frames[open.f], s'.frames[open.f];
    assert FrameOk(f, s.y);
    forall e | 0 <= e < |f'.dividers| ensures DividerOk(f'.dividers[e], s'.y) && ClearBelow(f', e, f'.dividers[e].y) {
      assert DividerOk(f.dividers[e], s.y) && ClearBelow(f, e, f.dividers[e].y);
    }
    assert Snug(f') by { ClosedSnug(env, s); }
  }

  lemma MovedBeside(f: SeqFrame, f': SeqFrame, g: Rect)
    requires Beside(f, g)
    requires f'.box.y == f.box.y && f'.title.y == f.title.y && f'.title.h == f.title.h && |f'.dividers| == |f.dividers|
    requires forall e :: 0 <= e < |f.dividers| ==> f'.dividers[e] == MoveDivider(f.dividers[e], f'.title.x)
    ensures Beside(f', g)
  {
    forall e | 0 <= e < |f'.dividers| ensures Before(f'.dividers[e], g) || After(f'.dividers[e], g) {
      assert Before(f.dividers[e], g) || After(f.dividers[e], g);
    }
  }

  lemma EndKeepsPairs(env: Env, s: State, i: nat, j: nat)
    requires env.Valid() && s.Valid(env) && s.stack != [] && FramesOk(s) && i < j < |s.frames|
    ensures PairOk(PlaceRow(env, s, End).frames[i], PlaceRow(env, s, End).frames[j])
  {
    var s' := PlaceRow(env, s, End);
    var top := |s.stack| - 1;
    var k := s.stack[top].f;
    var f, f' := s.frames[k], s'.frames[k];
    ClosedFrame(env, s);
    assert PairOk(s.frames[i], s.frames[j]);
    if i == k {
      var g := s.frames[j];
      InnerShut(s, j);
      assert FrameOk(g, s.y);
      MovedBeside(f, f', g.box);
      assert Around(s.stack, top, j);
      var b :| b in s.stack[top].boxes && b.x <= g.box.x && g.box.x + g.box.w <= b.x + b.w;
    } else if j == k {
      if !Shut(s.frames[i]) {
        assert !Shut(f);
        assert forall e :: 0 <= e < |s.frames[i].dividers| ==> Before(s.frames[i].dividers[e], f'.box);
      }
    }
  }

  /** What closing the innermost frame leaves of the others. */
  lemma EndShape(env: Env, s: State)
    requires env.Valid() && s.Valid(env) && s.stack != []
    ensures var s', top := PlaceRow(env, s, End), |s.stack| - 1;
            var k := s.stack[top].f;
            && |s'.frames| == |s.frames| && |s'.stack| == top
            && (forall j :: 0 <= j < |s.frames| && j != k ==> s'.frames[j] == s.frames[j])
            && (forall d :: 0 <= d < top ==> s'.stack[d].f == s.stack[d].f && s'.stack[d].floor == s.stack[d].floor)
            && (forall d :: 0 <= d < top ==> forall b <- s.stack[d].boxes :: b in s'.stack[d].boxes)
            && (top > 0 ==> s'.frames[k].box in s'.stack[top - 1].boxes)
  {
    hide CloseFrame;
  }

  lemma EndKeepsHeld(env: Env, s: State)
    requires env.Valid() && s.Valid(env) && s.stack != [] && FramesOk(s)
    ensures HeldOk(PlaceRow(env, s, End))
  {
    hide PlaceRow, FrameOk, PairOk, FloorsOk, Snug, ClearBelow;
    var s' := PlaceRow(env, s, End);
    var top := |s.stack| - 1;
    var k := s.stack[top].f;
    ClosedFrame(env, s);
    EndShape(env, s);
    var f' := s'.frames[k];
    forall d, j | 0 <= d < |s'.stack| && 0 <= j < |s'.frames| && Shut(s'.frames[j]) && Around(s'.stack, d, j)
      ensures HeldBy(s'.stack[d].boxes, s'.frames[j].box)
    {
      var r := s'.frames[j].box;
      if d == top - 1 && k <= j {
        assert f'.box in s'.stack[d].boxes;
        if k < j {
          assert Around(s.stack, top, j);
          var b :| b in s.stack[top].boxes && b.x <= r.x && r.x + r.w <= b.x + b.w;
        }
        assert f'.box.x <= r.x && r.x + r.w <= f'.box.x + f'.box.w;
      } else {
        assert Around(s.stack, d, j);
        var b :| b in s.stack[d].boxes && b.x <= r.x && r.x + r.w <= b.x + b.w;
        assert b in s'.stack[d].boxes;
      }
    }
  }

  /** Popping the innermost frame once it is shut. */
  lemma PopKeepsStack(s: State, s': State, k: nat)
    requires StackOk(s) && FloorsOk(s) && s.stack != [] && k == s.stack[|s.stack| - 1].f
    requires |s'.stack| == |s.stack| - 1 && |s'.frames| == |s.frames| && Shut(s'.frames[k])
    requires forall d :: 0 <= d < |s'.stack| ==> s'.stack[d].f == s.stack[d].f && s'.stack[d].floor == s.stack[d].floor
    requires forall i :: 0 <= i < |s.frames| && i != k ==> s'.frames[i] == s.frames[i]
    ensures StackOk(s') && FloorsOk(s')
  {
    forall d | 0 <= d < |s'.stack| ensures s'.frames[s'.stack[d].f] == s.frames[s.stack[d].f] {
      assert s.stack[d].f < s.stack[|s.stack| - 1].f;
    }
    forall i | 0 <= i < |s'.frames| && !Shut(s'.frames[i]) ensures OnStack(s'.stack, i) {
      var d :| 0 <= d < |s.stack| && s.stack[d].f == i;
      assert d < |s'.stack| && s'.stack[d].f == i;
    }
  }

  lemma EndKeepsStack(env: Env, s: State)
    requires env.Valid() && s.Valid(env) && s.stack != [] && FramesOk(s)
    ensures StackOk(PlaceRow(env, s, End)) && FloorsOk(PlaceRow(env, s, End))
  {
    var s' := PlaceRow(env, s, End);
    ClosedFrame(env, s);
    EndShape(env, s);
    hide PlaceRow, FrameOk, PairOk, HeldOk, StackOk, FloorsOk;
    PopKeepsStack(s, s', s.stack[|s.stack| - 1].f);
  }

  lemma EndKeeps(env: Env, s: State)
    requires env.Valid() && s.Valid(env) && s.stack != [] && FramesOk(s)
    ensures FramesOk(PlaceRow(env, s, End))
  {
    var s' := PlaceRow(env, s, End);
    var k := s.stack[|s.stack| - 1].f;
    ClosedFrame(env, s);
    EndKeepsStack(env, s);
    forall i | 0 <= i < |s'.frames| ensures FrameOk(s'.frames[i], s'.y) {
      if i != k {
        FrameOkLater(s.frames[i], s.y, s'.y);
      }
    }
    forall i, j | 0 <= i < j < |s'.frames| ensures PairOk(s'.frames[i], s'.frames[j]) {
      EndKeepsPairs(env, s, i, j);
    }
    EndKeepsHeld(env, s);
  }

  /** Every row keeps the frames in order. */
  lemma FramesKept(env: Env, s: State, r: Row)
    requires env.Valid() && s.Valid(env) && KnownRow(env.actors, r) && FramesOk(s)
    ensures FramesOk(PlaceRow(env, s, r))
  {
    var s' := PlaceRow(env, s, r);
    match r {
      case Message(from, to, _, _, _) =>
        var i, j := Col(env.actors, from), Col(env.actors, to);
        HoldKeeps(s, s', {i, j}, MessageBoxes(env, PlaceMessage(env, s.y, r, s.stack != []), i));
      case Note(from, to, _, _) =>
        HoldKeeps(s, s', {Col(env.actors, from), Col(env.actors, to)}, [PlaceNote(env, s.y, r).box]);
      case Frame(_, _) =>
        OpenKeeps(env, s, r);
      case Divider(_, _) =>
        if s.stack != [] {
          DividerKeeps(env, s, r);
        }
      case End =>
        if s.stack != [] {
          EndKeeps(env, s);
        }
    }
  }
}
