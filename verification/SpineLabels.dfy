// The labels of a main path's steps and of its branches' arrows, against the boxes and
// each other (layoutSpine, ui/src/diagramLayout.ts; the label rules of check,
// ui/src/diagramCheck.ts).
module SpineLabels {
  import opened Geometry
  import opened Flow
  import opened SpineRows

  // ---- over a branch's arrows ----

  predicate HasLabel(p: Plan, a: Arrow) {
    HasArrow(p, a) && TextOf(p, a).Some?
  }

  lemma LabelAboveRow(p: Plan, r: nat, k: nat)
    requires PlanOk(p) && HasLabel(p, Out(r, k))
    ensures var l, q := ArrowLabel(p, Out(r, k)), ArrowPoints(p, Out(r, k));
            && l.h >= 0.0 && l.w >= 0.0 && l.y + l.h == Mid(p.rows, r) - 8.0 && q[0].y == q[1].y == Mid(p.rows, r)
            && l.y >= Mid(p.rows, r) - Above(p.rows[r].chain)
  {
    RowOf(p, Hung(r, k));
    assert p.rows[r].chain[k] in p.rows[r].chain;
    hide Mid, ColumnX, Right;
  }

  /** Rows above a label end 8 above it, rows below start below it. */
  lemma LabelRows(p: Plan, r: nat, k: nat, t: nat)
    requires PlanOk(p) && HasLabel(p, Out(r, k)) && t < |p.rows| && t != r
    ensures var l := ArrowLabel(p, Out(r, k));
            if t < r then Top(p.rows, t) + RowHeight(p.rows[t]) + 8.0 <= l.y
            else l.y + l.h <= Top(p.rows, t)
  {
    LabelAboveRow(p, r, k);
    RowOf(p, OnPath(r));
    hide ArrowLabel, ArrowPoints;
    if t < r {
      RowsApart(p.rows, t, r);
    } else {
      RowsApart(p.rows, r, t);
    }
  }

  /** A branch's label stands 8 above its own arrow, over no box of another row. */
  lemma OutLabelClear(p: Plan, r: nat, k: nat)
    requires PlanOk(p) && HasLabel(p, Out(r, k))
    ensures var l, q := ArrowLabel(p, Out(r, k)), ArrowPoints(p, Out(r, k)); Clear(l, q[0], q[1], 8.0)
    ensures forall m :: HasMark(p, m) && m.r != r ==> !Overlaps(ArrowLabel(p, Out(r, k)), BoxOf(p, m))
  {
    var l, q := ArrowLabel(p, Out(r, k)), ArrowPoints(p, Out(r, k));
    LabelAboveRow(p, r, k);
    ClearByGap(l, q[0], q[1], 8.0);
    hide BoxOf, ArrowPoints, Top, Mid, ArrowLabel, PlanOk;
    forall m | HasMark(p, m) && m.r != r ensures !Overlaps(l, BoxOf(p, m)) {
      BoxInRow(p, m);
      LabelRows(p, r, k, m.r);
    }
  }

  /** Along its row it is half way between the two boxes its arrow joins, 24 from each
      when the box it leaves keeps to its column. */
  lemma OutLabelBetween(p: Plan, r: nat, k: nat)
    requires PlanOk(p) && HasLabel(p, Out(r, k))
    ensures var l, q := ArrowLabel(p, Out(r, k)), ArrowPoints(p, Out(r, k));
            && l.x - q[0].x == q[1].x - (l.x + l.w)
            && (k == 0 || p.rows[r].chain[k - 1].w <= p.sideW ==> q[0].x + 24.0 <= l.x)
  {
    hide ColumnGap, Right, PlanOk, Mid, Top, BoxOf, ArrowPoints, ArrowLabel, Way, Pitch, ColumnX;
    OutLabelAt(p, r, k);
    OutAcross(p, r, k);
    PitchHolds(p, r, k);
    if k > 0 {
      ColumnsApart(p, k - 1, k);
      OnePitch(p, k - 1);
      PitchIs(p, k - 1);
    } else {
      FirstColumn(p, r);
    }
  }

  lemma PitchIs(p: Plan, k: nat)
    ensures Pitch(p, k) == p.sideW + ColumnGap(p.rows, k + 1)
  {
  }

  /** The first arrow of a branch starts no further right than the path and crosses the whole
      first gap. */
  lemma FirstColumn(p: Plan, r: nat)
    requires PlanOk(p) && HasArrow(p, Out(r, 0))
    ensures var q := ArrowPoints(p, Out(r, 0)); q[0].x + ColumnGap(p.rows, 0) <= q[1].x
  {
    hide ColumnGap, Mid;
    BoxAcross(p, OnPath(r));
  }

  /** The way to the next column leaves room for the label of the arrow into it. */
  lemma PitchHolds(p: Plan, r: nat, k: nat)
    requires PlanOk(p) && HasLabel(p, Out(r, k))
    ensures ColumnGap(p.rows, k) >= p.rows[r].chain[k].text.value.w as real + 48.0
    ensures k > 0 ==> Pitch(p, k - 1) >= p.rows[r].chain[k].text.value.w as real + 64.0
  {
    hide ColumnGap;
    assert p.rows[r] in p.rows;
  }

  /** Where a branch's label lies: half way along its arrow, 8 above it. */
  lemma OutLabelAt(p: Plan, r: nat, k: nat)
    requires PlanOk(p) && HasLabel(p, Out(r, k))
    ensures var l, q, text := ArrowLabel(p, Out(r, k)), ArrowPoints(p, Out(r, k)), p.rows[r].chain[k].text.value;
            && l.w == text.w as real && l.h == text.h as real && l.w >= 0.0 && l.h >= 0.0
            && 2.0 * l.x + l.w == q[0].x + q[1].x && l.y + l.h == Mid(p.rows, r) - 8.0
  {
    hide BoxOf, Mid, ColumnX, Right;
    LabelAboveRow(p, r, k);
  }

  /** From a column to twice the middle of the arrow from its node to the next. */
  function Reach(p: Plan, r: nat, k: nat): real
    requires HasMark(p, Hung(r, k))
  {
    p.rows[r].chain[k].w + Pitch(p, k)
  }

  /** The box stands over 16 tall in the label's row, and the label, half way to the next
      column from the node its arrow leaves, meets it across. */
  predicate OutReaches(p: Plan, r: nat, k: nat, m: Mark)
    requires HasLabel(p, Out(r, k)) && HasMark(p, m)
  {
    && m.Hung? && m.r == r && k > 0 && p.rows[r].chain[m.k].h > 16.0
    && var w, t, reach := p.rows[r].chain[m.k].w, p.rows[r].chain[k].text.value.w as real, Reach(p, r, k - 1);
       if m.k < k then reach + 2.0 * Way(p, m.k, k - 1) < 2.0 * w + t
       else reach < 2.0 * Way(p, k - 1, m.k) + 2.0 * w + t && 2.0 * Way(p, k - 1, m.k) < reach + t
  }

  /** A branch's label lies over a box exactly when it reaches one of its own branch. */
  lemma OutLabelOver(p: Plan, r: nat, k: nat, m: Mark)
    requires PlanOk(p) && HasLabel(p, Out(r, k)) && HasMark(p, m)
    ensures Overlaps(ArrowLabel(p, Out(r, k)), BoxOf(p, m)) <==> OutReaches(p, r, k, m)
  {
    hide ColumnGap, Right, PlanOk, Top, BoxOf, ArrowPoints, ArrowLabel, Mid, Pitch, Way, ColumnX, OutReaches;
    if m.r != r {
      OutLabelClear(p, r, k);
      NotReached(p, r, k, m);
    } else {
      OutLabelAt(p, r, k);
      OutAcross(p, r, k);
      OutLabelBetween(p, r, k);
      PitchHolds(p, r, k);
      BoxInRow(p, m);
      BoxAcross(p, m);
      MarkAt(p, m);
      if m.OnPath? {
        PathRight(p, r);
        PathBeside(p, Out(r, k));
        if k > 0 {
          ColumnsApart(p, 0, k - 1);
          OutAfterPath(p, r, k);
        }
        NotReached(p, r, k, m);
      } else if k == 0 {
        ColumnsApart(p, 0, m.k);
        NotReached(p, r, k, m);
      } else {
        ColumnsApart(p, k - 1, k);
        OnePitch(p, k - 1);
        ColumnsApart(p, if m.k < k then m.k else k - 1, if m.k < k then k - 1 else m.k);
        ReachIs(p, r, k, m);
        ChainBox(p, r, m.k);
        OutAfterPath(p, r, k);
      }
    }
  }

  lemma NotReached(p: Plan, r: nat, k: nat, m: Mark)
    requires HasLabel(p, Out(r, k)) && HasMark(p, m) && (m.r != r || m.OnPath? || k == 0)
    ensures !OutReaches(p, r, k, m)
  {
  }

  lemma ReachIs(p: Plan, r: nat, k: nat, m: Mark)
    requires HasLabel(p, Out(r, k)) && HasMark(p, m) && m.Hung? && m.r == r && k > 0
    ensures var w, t := p.rows[r].chain[m.k].w, p.rows[r].chain[k].text.value.w as real;
            var reach := p.rows[r].chain[k - 1].w + Pitch(p, k - 1);
            OutReaches(p, r, k, m) <==>
              && p.rows[r].chain[m.k].h > 16.0
              && if m.k < k then reach + 2.0 * Way(p, m.k, k - 1) < 2.0 * w + t
                 else reach < 2.0 * Way(p, k - 1, m.k) + 2.0 * w + t && 2.0 * Way(p, k - 1, m.k) < reach + t
  {
    hide Pitch, Way;
  }

  /** The path's boxes end left of every column. */
  lemma PathRight(p: Plan, r: nat)
    requires PlanOk(p) && r < |p.rows|
    ensures BoxOf(p, OnPath(r)).x + BoxOf(p, OnPath(r)).w + 96.0 <= ColumnX(p.rows, p.sideW, Right(p.rows), 0)
  {
    hide ColumnGap;
    BoxAcross(p, OnPath(r));
    hide BoxOf, Right;
  }

  /** The label of an arrow from one of a branch's nodes starts past that node's column. */
  lemma OutAfterPath(p: Plan, r: nat, k: nat)
    requires PlanOk(p) && HasLabel(p, Out(r, k)) && k > 0
    ensures ArrowLabel(p, Out(r, k)).x > ColumnX(p.rows, p.sideW, Right(p.rows), k - 1)
  {
    hide ColumnGap, Right, PlanOk, BoxOf, ArrowPoints, ArrowLabel, Mid, Pitch, Way, ColumnX;
    OutLabelAt(p, r, k);
    OutAcross(p, r, k);
    PitchHolds(p, r, k);
    ColumnsApart(p, k - 1, k);
    OnePitch(p, k - 1);
  }

  /** Two labels over one branch, neither over its first arrow, whose middles are nearer than
      the two are wide. */
  predicate OutsMeet(p: Plan, r: nat, j: nat, t: nat, k: nat)
    requires HasLabel(p, Out(r, j)) && HasLabel(p, Out(t, k))
  {
    && r == t && 0 < j < k
    && var u, v := p.rows[r].chain[j].text.value, p.rows[r].chain[k].text.value;
       var far := 2.0 * Way(p, j - 1, k - 1) + Reach(p, r, k - 1) - Reach(p, r, j - 1);
       && u.h > 0 && v.h > 0 && 0.0 - (u.w + v.w) as real < far < (u.w + v.w) as real
  }

  /** Labels of two branches never meet; two of one lie over each other exactly when their
      middles are that near. */
  lemma OutLabelsApart(p: Plan, r: nat, j: nat, t: nat, k: nat)
    requires PlanOk(p) && HasLabel(p, Out(r, j)) && HasLabel(p, Out(t, k)) && (r < t || (r == t && j < k))
    ensures Overlaps(ArrowLabel(p, Out(r, j)), ArrowLabel(p, Out(t, k))) <==> OutsMeet(p, r, j, t, k)
    ensures r == t && (j > 0 ==> p.rows[r].chain[j - 1].w <= p.sideW) && p.rows[r].chain[k - 1].w <= p.sideW ==>
              !Overlaps(ArrowLabel(p, Out(r, j)), ArrowLabel(p, Out(t, k)))
  {
    hide BoxOf, ArrowPoints, ArrowLabel, Mid, Top, PlanOk, Pitch, Keeps, Leaves, ColumnX, Way, Right;
    if r < t {
      LabelRows(p, r, j, t);
      LabelRows(p, t, k, r);
      LabelBelowTop(p, r, j);
      BoxInRow(p, OnPath(r));
    } else {
      OutLabelAt(p, r, j);
      OutLabelAt(p, r, k);
      OutAcross(p, r, j);
      OutAcross(p, r, k);
      OutLabelBetween(p, r, j);
      OutLabelBetween(p, r, k);
      PitchHolds(p, r, k);
      ColumnsApart(p, j, k - 1);
      ColumnsApart(p, k - 1, k);
      OnePitch(p, k - 1);
      OutAfterPath(p, r, k);
      if j > 0 {
        ColumnsApart(p, j - 1, j);
        OnePitch(p, j - 1);
        ColumnsApart(p, j - 1, k - 1);
      }
    }
  }

  lemma LabelBelowTop(p: Plan, r: nat, k: nat)
    requires PlanOk(p) && HasLabel(p, Out(r, k))
    ensures var l := ArrowLabel(p, Out(r, k)); l.y + l.h <= Top(p.rows, r) + RowHeight(p.rows[r])
  {
    LabelAboveRow(p, r, k);
    BoxInRow(p, OnPath(r));
    hide ArrowLabel, BoxOf;
  }

  // ---- beside the steps ----

  /** A step's label stands 8 right of its arrow, and at least 6 from both boxes. */
  lemma DownLabelClear(p: Plan, r: nat)
    requires PlanOk(p) && HasLabel(p, Down(r))
    ensures var l, q := ArrowLabel(p, Down(r)), ArrowPoints(p, Down(r));
            && l.x == 8.0 && l.w >= 0.0 && l.h >= 0.0
            && Clear(l, q[0], q[1], 8.0) && q[0].y + 6.0 <= l.y && l.y + l.h + 6.0 <= q[1].y
  {
    DownRuns(p, r);
    BoxInRow(p, OnPath(r));
    BoxInRow(p, OnPath(r + 1));
    RowsApart(p.rows, r, r + 1);
    RowOf(p, OnPath(r));
    var l, q := ArrowLabel(p, Down(r)), ArrowPoints(p, Down(r));
    hide Mid, Top, RowHeight, Gap, BoxOf;
    ClearByGap(l, q[0], q[1], 8.0);
  }

  /** From the middle of a row down to the middle of the next. */
  function Drop(p: Plan, r: nat): real
    requires r + 1 < |p.rows|
  {
    var row, next := p.rows[r], p.rows[r + 1];
    RowHeight(row) / 2.0 + Max(Gap(row) + RowHeight(next) / 2.0, Above(next.chain) + 8.0)
  }

  lemma DropIsDown(p: Plan, r: nat)
    requires r + 1 < |p.rows|
    ensures Mid(p.rows, r + 1) == Mid(p.rows, r) + Drop(p, r)
  {
    hide Gap, Above, RowHeight;
  }

  /** How far apart two boxes one row apart must be for a label between them to miss a
      branch's box beside the one whose own height is given. */
  function Slack(p: Plan, r: nat, own: real, other: real): real
    requires HasLabel(p, Down(r))
  {
    Drop(p, r) + (own - other) / 2.0 - p.rows[r].step.value.h as real
  }

  /** The label is wide enough to reach the branch's column, and the branch's box tall
      enough to reach the label, from the row above it or below. */
  predicate StepReaches(p: Plan, r: nat, m: Mark)
    requires HasLabel(p, Down(r)) && HasMark(p, m)
  {
    && m.Hung? && ColumnX(p.rows, p.sideW, Right(p.rows), m.k) < LABEL_GAP as real + p.rows[r].step.value.w as real
    && var h, upper, lower := p.rows[m.r].chain[m.k].h, p.rows[r].h, p.rows[r + 1].h;
       || (m.r == r && h > Slack(p, r, upper, lower))
       || (m.r == r + 1 && h > Slack(p, r, lower, upper))
  }

  /** A step's label lies over a box exactly when it is a branch's the label reaches. */
  lemma StepLabelOver(p: Plan, r: nat, m: Mark)
    requires PlanOk(p) && HasLabel(p, Down(r)) && HasMark(p, m)
    ensures Overlaps(ArrowLabel(p, Down(r)), BoxOf(p, m)) <==> StepReaches(p, r, m)
  {
    hide PlanOk, BoxOf, ArrowPoints, ArrowLabel, Mid, Top, Drop, Right, ColumnX, RowHeight;
    StepLabelAt(p, r);
    DownLabelClear(p, r);
    DownRuns(p, r);
    BoxAcross(p, m);
    BoxInRow(p, m);
    BoxInRow(p, OnPath(r));
    BoxInRow(p, OnPath(r + 1));
    DropIsDown(p, r);
    MarkAt(p, OnPath(r));
    MarkAt(p, OnPath(r + 1));
    MarkAt(p, m);
    if m.r < r {
      MarkRowsApart(p, m, OnPath(r));
    } else if m.r > r + 1 {
      MarkRowsApart(p, OnPath(r + 1), m);
    }
  }

  /** Where a mark's box stands. */
  lemma MarkAt(p: Plan, m: Mark)
    requires HasMark(p, m)
    ensures var b, h := BoxOf(p, m), if m.OnPath? then p.rows[m.r].h else p.rows[m.r].chain[m.k].h;
            b.h == h && b.y == Mid(p.rows, m.r) - h / 2.0
    ensures m.Hung? ==> BoxOf(p, m).x == ColumnX(p.rows, p.sideW, Right(p.rows), m.k)
  {
    hide Mid, ColumnX, Right;
  }

  /** Where a step's label stands: half way between the boxes. */
  lemma StepLabelAt(p: Plan, r: nat)
    requires HasLabel(p, Down(r))
    ensures var l, q, text := ArrowLabel(p, Down(r)), ArrowPoints(p, Down(r)), p.rows[r].step.value;
            && l.w == text.w as real && l.h == text.h as real
            && l.y == (q[0].y + q[1].y) / 2.0 - l.h / 2.0
  {
    hide BoxOf;
  }

  /** Where the k-th arrow of a branch starts, across. */
  function OutStart(p: Plan, r: nat, k: nat): real
    requires HasArrow(p, Out(r, k))
  {
    if k == 0 then p.rows[r].w / 2.0 else ColumnX(p.rows, p.sideW, Right(p.rows), k - 1) + p.rows[r].chain[k - 1].w
  }

  lemma StartIs(p: Plan, r: nat, k: nat)
    requires PlanOk(p) && HasArrow(p, Out(r, k))
    ensures ArrowPoints(p, Out(r, k))[0].x == OutStart(p, r, k)
    ensures ArrowPoints(p, Out(r, k))[1].x == ColumnX(p.rows, p.sideW, Right(p.rows), k)
  {
    hide ColumnX, Mid, Right;
    OutAcross(p, r, k);
  }

  /** The branch hangs from the next row, its label starts short of where the step's ends, and
      the two rows are too close for both. */
  predicate StepMeets(p: Plan, r: nat, t: nat, k: nat)
    requires HasLabel(p, Down(r)) && HasLabel(p, Out(t, k))
  {
    && t == r + 1
    && var text := p.rows[t].chain[k].text.value;
       && OutStart(p, t, k) + ColumnX(p.rows, p.sideW, Right(p.rows), k) - text.w as real
          < 2.0 * (LABEL_GAP + p.rows[r].step.value.w) as real
       && Slack(p, r, p.rows[t].h, p.rows[r].h) < 16.0 + 2.0 * text.h as real
  }

  /** A step's label lies over a branch's label exactly then. */
  lemma StepLabelOverLabel(p: Plan, r: nat, t: nat, k: nat)
    requires PlanOk(p) && HasLabel(p, Down(r)) && HasLabel(p, Out(t, k))
    ensures Overlaps(ArrowLabel(p, Down(r)), ArrowLabel(p, Out(t, k))) <==> StepMeets(p, r, t, k)
  {
    hide PlanOk, BoxOf, ArrowPoints, ArrowLabel, Mid, Top, Drop, RowHeight, ColumnX, Right, OutStart;
    StepLabelAt(p, r);
    DownLabelClear(p, r);
    DownRuns(p, r);
    DropIsDown(p, r);
    MarkAt(p, OnPath(r));
    MarkAt(p, OnPath(r + 1));
    LabelAboveRow(p, t, k);
    OutLabelAt(p, t, k);
    OutLabelBetween(p, t, k);
    StartIs(p, t, k);
    OutRuns(p, t, k);
    BoxInRow(p, OnPath(r));
    BoxInRow(p, OnPath(r + 1));
    OutEndsFar(p, t, k);
    if t <= r {
      LabelBelowTop(p, t, k);
      if t < r {
        LabelRows(p, t, k, r);
      }
    } else if t > r + 1 {
      LabelRows(p, t, k, r + 1);
    }
  }

  /** Labels of two steps never meet. */
  lemma StepLabelsApart(p: Plan, r: nat, t: nat)
    requires PlanOk(p) && HasLabel(p, Down(r)) && HasLabel(p, Down(t)) && r < t
    ensures !Overlaps(ArrowLabel(p, Down(r)), ArrowLabel(p, Down(t)))
  {
    hide PlanOk, BoxOf, ArrowPoints, ArrowLabel, Mid, Top, RowHeight;
    DownLabelClear(p, r);
    DownLabelClear(p, t);
    DownsApart(p, r, t);
  }

  lemma OutEndsFar(p: Plan, r: nat, k: nat)
    requires PlanOk(p) && HasArrow(p, Out(r, k))
    ensures ArrowPoints(p, Out(r, k))[0].x >= 8.0 && ArrowPoints(p, Out(r, k))[1].x >= 96.0
  {
    hide Mid, ColumnX;
    PathBeside(p, Out(r, k));
    BoxAcross(p, OnPath(r));
    BoxAcross(p, Hung(r, k));
  }
}
