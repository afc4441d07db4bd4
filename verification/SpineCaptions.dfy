// The labels of a drawing with a spine, a step's, a branch's and a lane's, held to the label
// rules of check (ui/src/diagramCheck.ts).
module SpineCaptions {
  import opened Geometry
  import opened Routes
  import opened Sorting
  import opened SpineRows
  import opened SpineLanes
  import opened SpineLabels
  import opened SpineDrawn

  ghost predicate HasCaption(p: Plan, order: seq<Lane>, l: Line) {
    HasLine(p, order, l) && OnRows(p, order) && LineRoute(p, order, l).caption.Some?
  }

  ghost function CaptionOf(p: Plan, order: seq<Lane>, l: Line): Rect
    requires HasCaption(p, order, l)
  {
    LineRoute(p, order, l).caption.value
  }

  lemma AlongCaption(p: Plan, order: seq<Lane>, l: Line)
    requires HasCaption(p, order, l) && l.Along?
    ensures HasLabel(p, l.a) && CaptionOf(p, order, l) == ArrowLabel(p, l.a)
    ensures LinePoints(p, order, l) == ArrowPoints(p, l.a)
  {
    hide ArrowLabel, ArrowPoints;
  }

  /** A lane's label: left of the lane by 8, so left of every box. */
  lemma BesideCaption(p: Plan, order: seq<Lane>, k: nat)
    requires Drawable(p, order) && HasCaption(p, order, Beside(k))
    ensures var r, q := CaptionOf(p, order, Beside(k)), LinePoints(p, order, Beside(k));
            && r.x + r.w + 8.0 == q[1].x && |q| == 4 && q[2].x == q[1].x
            && q[1].x + 32.0 <= LeftOf(p.rows) <= 0.0
  {
    hide Port, Fitting, Texts, Sorted, RowsOk, Mid, LaneX, Right, Leftmost, SideOf;
    DrawableOnRows(p, order);
    LaneLabelsClear(SideOf(p.rows), order, LeftOf(p.rows), k);
  }

  // ---- a label and its own line ----

  ghost predicate ClearOf(r: Rect, q: seq<Point>, least: real) {
    forall i :: 0 <= i < |q| - 1 ==> Clear(r, q[i], q[i + 1], least)
  }

  /** Every label is 8 clear of its own line. */
  lemma CaptionClear(p: Plan, order: seq<Lane>, l: Line)
    requires Drawable(p, order) && HasCaption(p, order, l)
    ensures ClearOf(CaptionOf(p, order, l), LinePoints(p, order, l), 8.0)
  {
    hide ArrowLabel, ArrowPoints, Fitting, Texts, Sorted, RowsOk, LineRoute, LinePoints, Clear, CaptionOf;
    if l.Along? {
      AlongCaption(p, order, l);
      if l.a.Down? {
        DownLabelClear(p, l.a.r);
      } else {
        OutLabelClear(p, l.a.r, l.a.k);
      }
    } else {
      LaneClear(p, order, l.k);
    }
  }

  lemma LaneClear(p: Plan, order: seq<Lane>, k: nat)
    requires Drawable(p, order) && HasCaption(p, order, Beside(k))
    ensures ClearOf(CaptionOf(p, order, Beside(k)), LinePoints(p, order, Beside(k)), 8.0)
  {
    hide Drawable, LineRoute, LinePoints, CaptionOf, Clear, GapX, LeftOf, OnRows;
    var r, q := CaptionOf(p, order, Beside(k)), LinePoints(p, order, Beside(k));
    BesideCaption(p, order, k);
    LaneEndsRight(p, order, k);
    forall i | 0 <= i < |q| - 1 ensures Clear(r, q[i], q[i + 1], 8.0) {
      RightClear(r, q[i], q[i + 1]);
    }
  }

  lemma LaneEndsRight(p: Plan, order: seq<Lane>, k: nat)
    requires Drawable(p, order) && HasCaption(p, order, Beside(k))
    ensures var q := LinePoints(p, order, Beside(k)); |q| == 4 && q[1].x <= q[0].x && q[1].x <= q[3].x
  {
    hide Fitting, Texts, Sorted, RowsOk, LinePoints, BoxOf, LeftOf, Joins, LineRoute;
    LaneMeets(p, order, k);
    LaneStarts(p, order, k);
    LeftOfAll(p, LineFrom(p, order, Beside(k)));
    LeftOfAll(p, LineTo(p, order, Beside(k)));
  }

  lemma RightClear(r: Rect, a: Point, b: Point)
    requires r.x + r.w + 8.0 <= a.x && r.x + r.w + 8.0 <= b.x
    ensures Clear(r, a, b, 8.0)
  {
    ClearByGap(r, a, b, 8.0);
  }

  // ---- a label and a box ----

  /** The label of a step, or of a branch's arrow, reaches a box of a branch. */
  predicate CaptionReaches(p: Plan, l: Line, m: Mark)
    requires l.Along? ==> HasLabel(p, l.a)
    requires HasMark(p, m)
  {
    l.Along? && if l.a.Down? then StepReaches(p, l.a.r, m) else OutReaches(p, l.a.r, l.a.k, m)
  }

  /** A label lies over a box exactly when it reaches it; a lane's never does. */
  lemma CaptionOver(p: Plan, order: seq<Lane>, l: Line, m: Mark)
    requires Drawable(p, order) && HasCaption(p, order, l) && HasMark(p, m)
    ensures l.Along? ==> HasLabel(p, l.a)
    ensures Overlaps(CaptionOf(p, order, l), BoxOf(p, m)) <==> CaptionReaches(p, l, m)
  {
    hide ArrowLabel, ArrowPoints, Fitting, Texts, Sorted, RowsOk, LineRoute, LinePoints, BoxOf, CaptionOf;
    hide StepReaches, OutReaches, LeftOf;
    if l.Along? {
      AlongCaption(p, order, l);
      if l.a.Down? {
        StepLabelOver(p, l.a.r, m);
      } else {
        OutLabelOver(p, l.a.r, l.a.k, m);
      }
    } else {
      BesideCaption(p, order, l.k);
      LeftOfAll(p, m);
    }
  }

  // ---- two labels ----

  /** Two labels over each other: a step's and one of the branch at the next row, or two of
      one branch. */
  predicate CaptionsMeet(p: Plan, l: Line, n: Line)
    requires l.Along? ==> HasLabel(p, l.a)
    requires n.Along? ==> HasLabel(p, n.a)
  {
    && l.Along? && n.Along?
    && match (l.a, n.a)
       case (Down(_), Down(_)) => false
       case (Down(r), Out(t, k)) => StepMeets(p, r, t, k)
       case (Out(t, k), Down(r)) => StepMeets(p, r, t, k)
       case (Out(r, j), Out(t, k)) => OutsMeet(p, r, j, t, k) || OutsMeet(p, t, k, r, j)
  }

  lemma AlongMeet(p: Plan, a: Arrow, b: Arrow)
    requires PlanOk(p) && HasLabel(p, a) && HasLabel(p, b) && a != b
    ensures Overlaps(ArrowLabel(p, a), ArrowLabel(p, b)) <==> CaptionsMeet(p, Along(a), Along(b))
  {
    hide ArrowLabel, PlanOk, StepMeets;
    if a.Down? && b.Down? {
      StepLabelsApart(p, if a.r < b.r then a.r else b.r, if a.r < b.r then b.r else a.r);
    } else if a.Down? {
      StepLabelOverLabel(p, a.r, b.r, b.k);
    } else if b.Down? {
      StepLabelOverLabel(p, b.r, a.r, a.k);
    } else if a.r < b.r || (a.r == b.r && a.k < b.k) {
      OutLabelsApart(p, a.r, a.k, b.r, b.k);
    } else {
      OutLabelsApart(p, b.r, b.k, a.r, a.k);
    }
  }

  /** Labels of a step or a branch lie right of every lane's. */
  lemma AlongRight(p: Plan, order: seq<Lane>, l: Line)
    requires Drawable(p, order) && HasCaption(p, order, l) && l.Along?
    ensures CaptionOf(p, order, l).x >= 0.0
  {
    hide ArrowLabel, ArrowPoints, Fitting, Texts, Sorted, RowsOk, LineRoute, LinePoints, BoxOf, CaptionOf, Right;
    hide ColumnX;
    AlongCaption(p, order, l);
    if l.a.Down? {
      DownLabelClear(p, l.a.r);
    } else if l.a.k > 0 {
      OutAfterPath(p, l.a.r, l.a.k);
      ColumnsApart(p, 0, l.a.k - 1);
      PathRight(p, l.a.r);
      BoxAcross(p, OnPath(l.a.r));
    } else {
      OutLabelBetween(p, l.a.r, 0);
      OutEndsFar(p, l.a.r, 0);
    }
  }

  lemma LaneCaptions(p: Plan, order: seq<Lane>, j: nat, k: nat)
    requires Drawable(p, order) && HasCaption(p, order, Beside(j)) && HasCaption(p, order, Beside(k)) && j < k
    ensures !Overlaps(CaptionOf(p, order, Beside(j)), CaptionOf(p, order, Beside(k)))
  {
    hide Port, Fitting, Texts, Sorted, RowsOk, Mid, LaneX, Right, Leftmost, SideOf;
    DrawableOnRows(p, order);
    LaneLabelsClear(SideOf(p.rows), order, LeftOf(p.rows), k);
  }

  /** Two labels lie over each other exactly when they meet so. */
  lemma CaptionsApart(p: Plan, order: seq<Lane>, l: Line, n: Line)
    requires Drawable(p, order) && HasCaption(p, order, l) && HasCaption(p, order, n) && l != n
    ensures l.Along? ==> HasLabel(p, l.a)
    ensures n.Along? ==> HasLabel(p, n.a)
    ensures Overlaps(CaptionOf(p, order, l), CaptionOf(p, order, n)) <==> CaptionsMeet(p, l, n)
  {
    hide ArrowLabel, ArrowPoints, Fitting, Texts, Sorted, RowsOk, LineRoute, LinePoints, CaptionOf, StepMeets, OutsMeet;
    hide LeftOf;
    if l.Along? && n.Along? {
      AlongCaption(p, order, l);
      AlongCaption(p, order, n);
      AlongMeet(p, l.a, n.a);
    } else if l.Along? {
      AlongCaption(p, order, l);
      AlongRight(p, order, l);
      BesideCaption(p, order, n.k);
    } else if n.Along? {
      AlongCaption(p, order, n);
      AlongRight(p, order, n);
      BesideCaption(p, order, l.k);
    } else if l.k < n.k {
      LaneCaptions(p, order, l.k, n.k);
    } else {
      LaneCaptions(p, order, n.k, l.k);
    }
  }
}
