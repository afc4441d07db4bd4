// Down the main path of a flow and out along its branches: rows, columns, boxes and
// the arrows between them (layoutSpine, ui/src/diagramLayout.ts).
module SpineRows {
  import opened Geometry
  import opened Routes
  import opened Flow

  /** One node of a branch: its box, and the label of the arrow into it. */
  datatype Link = Link(w: real, h: real, text: Option<LabelSize>)

  /** One node of the path: its box, the branch hung from it, the label of the arrow
      down from it, and whether its left side takes one lane only. */
  datatype Row = Row(w: real, h: real, chain: seq<Link>, step: Option<LabelSize>, single: bool)

  /** Boxes are 16 at least, a label has a height; a box that takes two lanes is 20. */
  ghost predicate RowOk(r: Row) {
    && r.w >= 16.0 && r.h >= 16.0 && (!r.single ==> r.h >= 20.0)
    && (forall l <- r.chain ::
        l.w >= 16.0 && l.h >= 16.0 && (l.text.Some? ==> l.text.value.w >= 0 && l.text.value.h >= 0))
    && (r.step.Some? ==> r.step.value.w >= 0 && r.step.value.h >= 0)
  }

  ghost predicate RowsOk(rows: seq<Row>) {
    forall r <- rows :: RowOk(r)
  }

  function Tallest(links: seq<Link>): (h: real)
    ensures forall l <- links :: l.h <= h
    ensures h >= 0.0
  {
    if links == [] then 0.0 else Max(links[0].h, Tallest(links[1..]))
  }

  function RowHeight(r: Row): (h: real)
    ensures h >= r.h && forall l <- r.chain :: l.h <= h
  {
    Max(r.h, Tallest(r.chain))
  }

  /** What the labels over a branch's arrows take, above the middle of its row. */
  function Above(links: seq<Link>): (h: real)
    ensures h >= 0.0
    ensures forall l <- links :: l.text.Some? ==> l.text.value.h as real + LABEL_GAP as real <= h
  {
    if links == [] then 0.0
    else Max(if links[0].text.Some? then (links[0].text.value.h + LABEL_GAP) as real else 0.0, Above(links[1..]))
  }

  /** The gap below a row, with room for the label of the arrow down. */
  function Gap(r: Row): (g: real)
    ensures g >= 24.0 && (r.step.Some? ==> g >= r.step.value.h as real + 12.0)
  {
    Max(STEP_GAP as real, if r.step.Some? then Up4(r.step.value.h + 12) as real else 0.0)
  }

  /** The top of the k-th row. */
  function Top(rows: seq<Row>, k: nat): real
    requires k < |rows|
  {
    if k == 0 then 0.0
    else
      var bottom := Top(rows, k - 1) + RowHeight(rows[k - 1]);
      Max(bottom + Gap(rows[k - 1]), bottom + Above(rows[k].chain) + 8.0 - RowHeight(rows[k]) / 2.0)
  }

  function Mid(rows: seq<Row>, k: nat): real
    requires k < |rows|
  {
    Top(rows, k) + RowHeight(rows[k]) / 2.0
  }

  /** Down the path, row by row. */
  method LayRows(rows: seq<Row>) returns (mids: seq<real>)
    ensures |mids| == |rows| && forall k: nat :: k < |rows| ==> mids[k] == Mid(rows, k)
  {
    hide RowHeight, Above, Gap;
    mids := [];
    var y, prevBottom: Option<real> := 0.0, None;
    for k := 0 to |rows|
      invariant |mids| == k && forall j: nat :: j < k ==> mids[j] == Mid(rows, j)
      invariant if k == 0 then y == 0.0 && prevBottom.None?
                else prevBottom == Some(Top(rows, k - 1) + RowHeight(rows[k - 1]))
                     && y == prevBottom.value + Gap(rows[k - 1])
    {
      var rowH, above := RowHeight(rows[k]), Above(rows[k].chain);
      if prevBottom.Some? {
        y := Max(y, prevBottom.value + above + 8.0 - rowH / 2.0);
      }
      var mid := y + rowH / 2.0;
      mids := mids + [mid];
      prevBottom := Some(mid + rowH / 2.0);
      y := y + rowH + Gap(rows[k]);
    }
  }

  /** Rows lie apart, in order, with room between two for the labels of the lower. */
  lemma {:induction false} RowsApart(rows: seq<Row>, j: nat, k: nat)
    requires RowsOk(rows) && j < k < |rows|
    ensures Top(rows, j) + RowHeight(rows[j]) + Gap(rows[j]) <= Top(rows, k)
    ensures Mid(rows, k) - Above(rows[k].chain) - 8.0 >= Top(rows, j) + RowHeight(rows[j])
    ensures Mid(rows, j) + 40.0 <= Mid(rows, k)
    decreases k
  {
    assert RowOk(rows[j]) && RowOk(rows[k]);
    if j < k - 1 {
      RowsApart(rows, j, k - 1);
      assert RowOk(rows[k - 1]);
    }
  }

  // ---- the columns ----

  /** The widest label on the arrows into column k. */
  function WidestInto(rows: seq<Row>, k: nat): (w: int)
    ensures w >= 0
    ensures forall r <- rows :: k < |r.chain| && r.chain[k].text.Some? ==> r.chain[k].text.value.w <= w
  {
    if rows == [] then 0
    else
      var rest, links := WidestInto(rows[1..], k), rows[0].chain;
      if k < |links| && links[k].text.Some? then MaxI(links[k].text.value.w, rest) else rest
  }

  function ColumnGap(rows: seq<Row>, k: nat): (g: real)
    ensures g >= 48.0 && (k == 0 ==> g >= 96.0)
    ensures forall r <- rows :: k < |r.chain| && r.chain[k].text.Some? ==> g >= r.chain[k].text.value.w as real + 48.0
  {
    MaxI(if k == 0 then 96 else 48, Up8(WidestInto(rows, k) + 48)) as real
  }

  function ColumnX(rows: seq<Row>, sideW: real, right: real, k: nat): real {
    if k == 0 then right + ColumnGap(rows, 0)
    else ColumnX(rows, sideW, right, k - 1) + sideW + ColumnGap(rows, k)
  }

  function Depth(rows: seq<Row>): (d: nat)
    ensures forall r <- rows :: |r.chain| <= d
  {
    if rows == [] then 0 else MaxI(|rows[0].chain|, Depth(rows[1..]))
  }

  /** The columns to the right, one per place in a branch. */
  method LayColumns(rows: seq<Row>, sideW: real, right: real) returns (colX: seq<real>)
    ensures |colX| == Depth(rows) && forall k: nat :: k < |colX| ==> colX[k] == ColumnX(rows, sideW, right, k)
  {
    hide ColumnGap, Depth;
    colX := [];
    var x := right;
    for k := 0 to Depth(rows)
      invariant |colX| == k && forall j: nat :: j < k ==> colX[j] == ColumnX(rows, sideW, right, j)
      invariant x == if k == 0 then right else ColumnX(rows, sideW, right, k - 1) + sideW
    {
      x := x + ColumnGap(rows, k);
      colX := colX + [x];
      x := x + sideW;
    }
  }

  lemma {:induction false} ColumnsOutward(rows: seq<Row>, sideW: real, right: real, j: nat, k: nat)
    requires j < k && sideW >= 0.0
    ensures ColumnX(rows, sideW, right, j) + sideW + ColumnGap(rows, k) <= ColumnX(rows, sideW, right, k)
    ensures ColumnX(rows, sideW, right, j) + sideW + ColumnGap(rows, j + 1) <= ColumnX(rows, sideW, right, k)
    ensures right + 96.0 <= ColumnX(rows, sideW, right, j)
    decreases k
  {
    hide ColumnGap;
    if j < k - 1 {
      ColumnsOutward(rows, sideW, right, j, k - 1);
    } else if j > 0 {
      ColumnsOutward(rows, sideW, right, j - 1, j);
    }
  }

  // ---- the boxes ----

  /** A node: on the path, or the k-th of the branch at row r. */
  datatype Mark = OnPath(r: nat) | Hung(r: nat, k: nat)

  /** The arrow down from row r, or into the k-th node of its branch. */
  datatype Arrow = Down(r: nat) | Out(r: nat, k: nat)

  datatype Plan = Plan(rows: seq<Row>, sideW: real)

  predicate HasMark(p: Plan, m: Mark) {
    m.r < |p.rows| && (m.Hung? ==> m.k < |p.rows[m.r].chain|)
  }

  predicate HasArrow(p: Plan, a: Arrow) {
    match a
    case Down(r) => r + 1 < |p.rows|
    case Out(r, k) => r < |p.rows| && k < |p.rows[r].chain|
  }

  function Right(rows: seq<Row>): (x: real)
    ensures forall r <- rows :: r.w / 2.0 <= x
    ensures x >= 0.0
  {
    if rows == [] then 0.0 else Max(rows[0].w / 2.0, Right(rows[1..]))
  }

  function BoxOf(p: Plan, m: Mark): Rect
    requires HasMark(p, m)
  {
    var row, mid := p.rows[m.r], Mid(p.rows, m.r);
    match m
    case OnPath(r) => Rect(0.0 - row.w / 2.0, mid - row.h / 2.0, row.w, row.h)
    case Hung(r, k) =>
      Rect(ColumnX(p.rows, p.sideW, Right(p.rows), k), mid - row.chain[k].h / 2.0, row.chain[k].w, row.chain[k].h)
  }

  function ArrowFrom(a: Arrow): Mark {
    match a
    case Down(r) => OnPath(r)
    case Out(r, k) => if k == 0 then OnPath(r) else Hung(r, k - 1)
  }

  function ArrowTo(a: Arrow): Mark {
    match a
    case Down(r) => OnPath(r + 1)
    case Out(r, k) => Hung(r, k)
  }

  /** Straight down to the next box, or out along the row. */
  function ArrowPoints(p: Plan, a: Arrow): (q: seq<Point>)
    requires HasArrow(p, a)
    ensures |q| == 2
  {
    var from, to := BoxOf(p, ArrowFrom(a)), BoxOf(p, ArrowTo(a));
    match a
    case Down(_) => [Point(0.0, from.y + from.h), Point(0.0, to.y)]
    case Out(r, k) => [Point(from.x + from.w, Mid(p.rows, r)), Point(to.x, Mid(p.rows, r))]
  }

  function TextOf(p: Plan, a: Arrow): Option<LabelSize>
    requires HasArrow(p, a)
  {
    match a
    case Down(r) => p.rows[r].step
    case Out(r, k) => p.rows[r].chain[k].text
  }

  /** A label: right of the arrow down, half way; above the arrow out, half way. */
  function ArrowLabel(p: Plan, a: Arrow): Rect
    requires HasArrow(p, a) && TextOf(p, a).Some?
  {
    var q := ArrowPoints(p, a);
    var w, h := TextOf(p, a).value.w as real, TextOf(p, a).value.h as real;
    match a
    case Down(_) => Rect(LABEL_GAP as real, (q[0].y + q[1].y) / 2.0 - h / 2.0, w, h)
    case Out(_, _) => Rect((q[0].x + q[1].x) / 2.0 - w / 2.0, q[0].y - LABEL_GAP as real - h, w, h)
  }

  ghost predicate PlanOk(p: Plan) {
    RowsOk(p.rows) && p.sideW >= 16.0
  }

  /** From the k-th column to the next. */
  function Pitch(p: Plan, k: nat): real {
    p.sideW + ColumnGap(p.rows, k + 1)
  }

  /** The last of its branch, or no wider than the way to the next column. */
  predicate Keeps(p: Plan, r: nat, k: nat)
    requires HasMark(p, Hung(r, k))
  {
    k + 1 == |p.rows[r].chain| || p.rows[r].chain[k].w <= Pitch(p, k)
  }

  /** No node of this branch but its last reaches past the column after it. */
  ghost predicate BranchKeeps(p: Plan, r: nat)
    requires r < |p.rows|
  {
    forall k: nat :: HasMark(p, Hung(r, k)) ==> Keeps(p, r, k)
  }

  /** The box an arrow leaves ends before the one it enters begins. */
  predicate Leaves(p: Plan, a: Arrow)
    requires HasArrow(p, a)
  {
    a.Out? && a.k > 0 ==> p.rows[a.r].chain[a.k - 1].w < Pitch(p, a.k - 1)
  }

  // ---- where they lie ----

  lemma RowOf(p: Plan, m: Mark)
    requires PlanOk(p) && HasMark(p, m)
    ensures RowOk(p.rows[m.r]) && RowHeight(p.rows[m.r]) >= 16.0
    ensures var b := BoxOf(p, m); b.w >= 16.0 && b.h >= 16.0
    ensures m.Hung? ==> BoxOf(p, m).h <= RowHeight(p.rows[m.r])
    ensures m.OnPath? ==> BoxOf(p, m).h <= RowHeight(p.rows[m.r]) && BoxOf(p, m).w / 2.0 <= Right(p.rows)
  {
    assert p.rows[m.r] in p.rows;
    if m.Hung? {
      assert p.rows[m.r].chain[m.k] in p.rows[m.r].chain;
    }
  }

  /** Every box lies within its row, centred on its middle. */
  lemma BoxInRow(p: Plan, m: Mark)
    requires PlanOk(p) && HasMark(p, m)
    ensures var b := BoxOf(p, m);
            && Top(p.rows, m.r) <= b.y && b.y + b.h <= Top(p.rows, m.r) + RowHeight(p.rows[m.r])
            && b.y + b.h / 2.0 == Mid(p.rows, m.r) && b.w >= 16.0 && b.h >= 16.0
  {
    RowOf(p, m);
  }

  /** The path's boxes lie between -Right and Right, a branch's 96 and more beyond. */
  lemma BoxAcross(p: Plan, m: Mark)
    requires PlanOk(p) && HasMark(p, m)
    ensures var b := BoxOf(p, m);
            if m.OnPath? then b.x + b.w / 2.0 == 0.0 && b.x + b.w <= Right(p.rows) && b.w >= 16.0
            else b.x >= Right(p.rows) + 96.0
  {
    RowOf(p, m);
    if m.Hung? {
      ColumnsOutward(p.rows, p.sideW, Right(p.rows), m.k, m.k + 1);
    }
  }

  /** Within a branch: j before k. */
  lemma ChainAcross(p: Plan, r: nat, j: nat, k: nat)
    requires PlanOk(p) && HasMark(p, Hung(r, k)) && j < k
    ensures HasMark(p, Hung(r, j)) && HasMark(p, Hung(r, j + 1))
    ensures var a, b := BoxOf(p, Hung(r, j)), BoxOf(p, Hung(r, j + 1));
            && b.x == a.x + Pitch(p, j) && a.x < b.x <= BoxOf(p, Hung(r, k)).x
            && (Keeps(p, r, j) <==> a.x + a.w <= b.x) && (a.w < Pitch(p, j) <==> a.x + a.w < b.x)
  {
    var right := Right(p.rows);
    hide ColumnGap, Mid, Right;
    ColumnsOutward(p.rows, p.sideW, right, j, k);
    ColumnsOutward(p.rows, p.sideW, right, j, j + 1);
    if j + 1 < k {
      ColumnsOutward(p.rows, p.sideW, right, j + 1, k);
    }
  }

  lemma MarkRowsApart(p: Plan, m: Mark, n: Mark)
    requires PlanOk(p) && HasMark(p, m) && HasMark(p, n) && m.r < n.r
    ensures BoxOf(p, m).y + BoxOf(p, m).h + 24.0 <= BoxOf(p, n).y
  {
    BoxInRow(p, m);
    BoxInRow(p, n);
    hide Top, BoxOf, Mid, Above, RowHeight;
    RowsApart(p.rows, m.r, n.r);
  }

  /** No two boxes overlap, if the inner of two in one branch keeps to its columns. */
  lemma BoxesApart(p: Plan, m: Mark, n: Mark)
    requires PlanOk(p) && HasMark(p, m) && HasMark(p, n) && m != n
    requires m.Hung? && n.Hung? && m.r == n.r ==> Keeps(p, m.r, if m.k < n.k then m.k else n.k)
    ensures !Overlaps(BoxOf(p, m), BoxOf(p, n))
  {
    hide BoxOf, Keeps, RowsOk;
    if m.r < n.r {
      MarkRowsApart(p, m, n);
    } else if n.r < m.r {
      MarkRowsApart(p, n, m);
    } else {
      BoxAcross(p, m);
      BoxAcross(p, n);
      if m.Hung? && n.Hung? {
        ChainAcross(p, m.r, if m.k < n.k then m.k else n.k, if m.k < n.k then n.k else m.k);
      }
    }
  }

  /** A branch's node that reaches past the column after it lies over the next node. */
  lemma WideOverlaps(p: Plan, r: nat, k: nat)
    requires PlanOk(p) && HasMark(p, Hung(r, k)) && !Keeps(p, r, k)
    ensures HasMark(p, Hung(r, k + 1)) && Overlaps(BoxOf(p, Hung(r, k)), BoxOf(p, Hung(r, k + 1)))
  {
    RowOf(p, Hung(r, k));
    RowOf(p, Hung(r, k + 1));
    hide Mid, ColumnGap, Right;
  }

  ghost predicate AllApart(p: Plan) {
    forall m, n :: HasMark(p, m) && HasMark(p, n) && m != n ==> !Overlaps(BoxOf(p, m), BoxOf(p, n))
  }

  ghost predicate AllKeep(p: Plan) {
    forall r: nat :: r < |p.rows| ==> BranchKeeps(p, r)
  }

  /** The boxes are pairwise apart exactly when every branch keeps to its columns. */
  lemma ApartIffKeep(p: Plan)
    requires PlanOk(p)
    ensures AllApart(p) <==> AllKeep(p)
  {
    hide PlanOk, BoxOf, Keeps, Overlaps;
    if AllKeep(p) {
      forall m, n | HasMark(p, m) && HasMark(p, n) && m != n ensures !Overlaps(BoxOf(p, m), BoxOf(p, n)) {
        assert BranchKeeps(p, m.r);
        if m.Hung? && n.Hung? && m.r == n.r {
          assert HasMark(p, Hung(m.r, if m.k < n.k then m.k else n.k));
        }
        BoxesApart(p, m, n);
      }
    }
    if !AllKeep(p) {
      var r: nat :| r < |p.rows| && !BranchKeeps(p, r);
      var k: nat :| HasMark(p, Hung(r, k)) && !Keeps(p, r, k);
      WideOverlaps(p, r, k);
    }
  }

  // ---- the arrows ----

  /** An arrow runs straight, between the middles of two facing sides: one down is 24
      long or more, one out runs outward exactly when the box it leaves lets it. */
  lemma ArrowRuns(p: Plan, a: Arrow)
    requires PlanOk(p) && HasArrow(p, a)
    ensures HasMark(p, ArrowFrom(a)) && HasMark(p, ArrowTo(a))
    ensures var q, from, to := ArrowPoints(p, a), BoxOf(p, ArrowFrom(a)), BoxOf(p, ArrowTo(a));
            if a.Down? then
              && q[0].x == q[1].x == 0.0 == from.x + from.w / 2.0 == to.x + to.w / 2.0
              && q[0].y == from.y + from.h && q[1].y == to.y && q[0].y + 24.0 <= q[1].y
            else
              && q[0].y == q[1].y == from.y + from.h / 2.0 == to.y + to.h / 2.0
              && q[0].x == from.x + from.w && q[1].x == to.x && 0.0 < q[0].x && 0.0 < q[1].x
              && (Leaves(p, a) <==> q[0].x < q[1].x)
  {
    if a.Down? {
      DownRuns(p, a.r);
    } else {
      OutRuns(p, a.r, a.k);
    }
  }

  lemma DownRuns(p: Plan, r: nat)
    requires PlanOk(p) && HasArrow(p, Down(r))
    ensures var q, from, to := ArrowPoints(p, Down(r)), BoxOf(p, OnPath(r)), BoxOf(p, OnPath(r + 1));
            && q[0].x == q[1].x == 0.0 == from.x + from.w / 2.0 == to.x + to.w / 2.0
            && q[0].y == from.y + from.h && q[1].y == to.y && q[0].y + 24.0 <= q[1].y
  {
    hide RowsOk, Right, Mid;
    BoxAcross(p, OnPath(r));
    BoxAcross(p, OnPath(r + 1));
    MarkRowsApart(p, OnPath(r), OnPath(r + 1));
  }

  lemma OutRuns(p: Plan, r: nat, k: nat)
    requires PlanOk(p) && HasArrow(p, Out(r, k))
    ensures var from := ArrowFrom(Out(r, k)); HasMark(p, from)
    ensures var q, from, to := ArrowPoints(p, Out(r, k)), BoxOf(p, ArrowFrom(Out(r, k))), BoxOf(p, Hung(r, k));
            && q[0].y == q[1].y == from.y + from.h / 2.0 == to.y + to.h / 2.0
            && q[0].x == from.x + from.w && q[1].x == to.x && 0.0 < q[0].x && 0.0 < q[1].x
            && (Leaves(p, Out(r, k)) <==> q[0].x < q[1].x)
  {
    hide RowsOk, Right, ColumnX, ColumnGap;
    var m := ArrowFrom(Out(r, k));
    BoxInRow(p, m);
    BoxInRow(p, Hung(r, k));
    BoxAcross(p, m);
    BoxAcross(p, Hung(r, k));
    if k > 0 {
      ChainAcross(p, r, k - 1, k);
      ChainBox(p, r, k - 1);
    }
    hide Mid;
  }

  lemma ChainBox(p: Plan, r: nat, k: nat)
    requires HasMark(p, Hung(r, k))
    ensures BoxOf(p, Hung(r, k)).w == p.rows[r].chain[k].w && BoxOf(p, Hung(r, k)).h == p.rows[r].chain[k].h
  {
    hide Mid, ColumnX, Right;
  }

  /** An arrow down passes behind no box. */
  lemma DownPassesNone(p: Plan, r: nat, m: Mark)
    requires PlanOk(p) && HasArrow(p, Down(r)) && HasMark(p, m)
    ensures !Enters(ArrowPoints(p, Down(r))[0], ArrowPoints(p, Down(r))[1], BoxOf(p, m))
  {
    hide RowsOk, Right, BoxOf, ArrowPoints, Top, Mid, Enters;
    ArrowRuns(p, Down(r));
    var q, b := ArrowPoints(p, Down(r)), BoxOf(p, m);
    assert q[0].x == q[1].x == 0.0 && q[0].y <= q[1].y;
    assert b.x >= 0.0 || b.y + b.h <= q[0].y || q[1].y <= b.y by {
      DownBeside(p, r, m);
    }
    Beside(q[0], q[1], b);
  }

  lemma Beside(a: Point, b: Point, r: Rect)
    requires a.x == b.x == 0.0 && a.y <= b.y && (r.x >= 0.0 || r.y + r.h <= a.y || b.y <= r.y)
    ensures !Enters(a, b, r)
  {
  }

  lemma DownBeside(p: Plan, r: nat, m: Mark)
    requires PlanOk(p) && HasArrow(p, Down(r)) && HasMark(p, m)
    ensures var q, b := ArrowPoints(p, Down(r)), BoxOf(p, m);
            b.x >= 0.0 || b.y + b.h <= q[0].y || q[1].y <= b.y
  {
    hide RowsOk, Right, Top, Mid;
    BoxAcross(p, m);
    BoxInRow(p, OnPath(r));
    if m.OnPath? && m.r < r {
      MarkRowsApart(p, m, OnPath(r));
    } else if m.OnPath? && m.r > r + 1 {
      BoxInRow(p, OnPath(r + 1));
      MarkRowsApart(p, OnPath(r + 1), m);
    }
  }

  /** An arrow out passes behind no box of another row, and none at all if its branch
      keeps to its columns. */
  lemma OutPassesNone(p: Plan, a: Arrow, m: Mark)
    requires PlanOk(p) && HasArrow(p, a) && HasMark(p, m) && a.Out?
    requires m.r == a.r && m.Hung? ==> BranchKeeps(p, a.r)
    ensures !Enters(ArrowPoints(p, a)[0], ArrowPoints(p, a)[1], BoxOf(p, m))
  {
    hide BoxOf, ArrowPoints, BranchKeeps, Leaves, RowsOk, Right, Top, Mid;
    ArrowRuns(p, a);
    BoxInRow(p, m);
    BoxInRow(p, ArrowTo(a));
    if m.r < a.r {
      MarkRowsApart(p, m, ArrowTo(a));
    } else if m.r > a.r {
      MarkRowsApart(p, ArrowTo(a), m);
    } else if m.OnPath? {
      PathBeside(p, a);
    } else {
      OutBeside(p, a, m);
    }
  }

  lemma PathBeside(p: Plan, a: Arrow)
    requires PlanOk(p) && HasArrow(p, a) && a.Out?
    ensures var b, q := BoxOf(p, OnPath(a.r)), ArrowPoints(p, a); b.x + b.w <= q[0].x && b.x + b.w <= q[1].x
  {
    hide RowsOk, Right, ColumnX, Mid;
    BoxAcross(p, OnPath(a.r));
    BoxAcross(p, Hung(a.r, a.k));
    if a.k > 0 {
      BoxAcross(p, Hung(a.r, a.k - 1));
      BoxInRow(p, Hung(a.r, a.k - 1));
    }
  }

  lemma KeepsAt(p: Plan, r: nat, k: nat)
    requires r < |p.rows| && BranchKeeps(p, r) && HasMark(p, Hung(r, k))
    ensures Keeps(p, r, k)
  {
  }

  lemma OutBeside(p: Plan, a: Arrow, m: Mark)
    requires PlanOk(p) && HasArrow(p, a) && HasMark(p, m) && a.Out? && m.Hung? && m.r == a.r && BranchKeeps(p, a.r)
    ensures var b, q := BoxOf(p, m), ArrowPoints(p, a);
            q[0].x <= q[1].x && (b.x >= q[1].x || b.x + b.w <= q[0].x)
  {
    hide PlanOk, BoxOf, ArrowPoints, Leaves, Pitch, BranchKeeps, Keeps;
    PathBeside(p, a);
    OutRuns(p, a.r, a.k);
    if m.k < a.k {
      OutPast(p, a, m.k);
    } else {
      OutNear(p, a);
      if m.k > a.k {
        ChainAcross(p, a.r, a.k, m.k);
      }
    }
  }

  lemma OutNear(p: Plan, a: Arrow)
    requires PlanOk(p) && HasArrow(p, a) && a.Out? && BranchKeeps(p, a.r)
    ensures ArrowPoints(p, a)[0].x <= ArrowPoints(p, a)[1].x && ArrowPoints(p, a)[1].x == BoxOf(p, Hung(a.r, a.k)).x
  {
    hide PlanOk, BoxOf, ArrowPoints, Leaves, Pitch, BranchKeeps, Keeps;
    PathBeside(p, a);
    OutRuns(p, a.r, a.k);
    if a.k > 0 {
      KeepsAt(p, a.r, a.k - 1);
      ChainAcross(p, a.r, a.k - 1, a.k);
    } else {
      BoxAcross(p, OnPath(a.r));
      BoxAcross(p, Hung(a.r, 0));
    }
  }

  /** Boxes nearer the path end before the arrow starts. */
  lemma OutPast(p: Plan, a: Arrow, j: nat)
    requires PlanOk(p) && HasArrow(p, a) && a.Out? && BranchKeeps(p, a.r) && j < a.k
    ensures HasMark(p, Hung(a.r, j))
    ensures var b, q := BoxOf(p, Hung(a.r, j)), ArrowPoints(p, a); q[0].x <= q[1].x && b.x + b.w <= q[0].x
  {
    hide PlanOk, BoxOf, ArrowPoints, Leaves, Pitch, BranchKeeps, Keeps;
    OutNear(p, a);
    OutRuns(p, a.r, a.k);
    ChainAcross(p, a.r, j, a.k);
    KeepsAt(p, a.r, j);
    if j < a.k - 1 {
      ChainAcross(p, a.r, j, a.k - 1);
      BoxInRow(p, Hung(a.r, a.k - 1));
    }
  }

  ghost predicate BranchPasses(p: Plan, r: nat)
    requires r < |p.rows|
  {
    forall k: nat, m :: HasArrow(p, Out(r, k)) && HasMark(p, m) ==>
      !Enters(ArrowPoints(p, Out(r, k))[0], ArrowPoints(p, Out(r, k))[1], BoxOf(p, m))
  }

  /** A branch's node that reaches past the next column has the arrow out of it run
      back behind the next node. */
  lemma WidePasses(p: Plan, r: nat, k: nat)
    requires PlanOk(p) && HasMark(p, Hung(r, k)) && !Keeps(p, r, k)
    ensures HasArrow(p, Out(r, k + 1)) && HasMark(p, Hung(r, k + 1))
    ensures var q := ArrowPoints(p, Out(r, k + 1)); Enters(q[0], q[1], BoxOf(p, Hung(r, k + 1)))
  {
    hide RowsOk, Right, ColumnX, Mid, Top;
    ArrowRuns(p, Out(r, k + 1));
    ChainAcross(p, r, k, k + 1);
    BoxInRow(p, Hung(r, k + 1));
    hide ArrowPoints, BoxOf;
  }

  /** No arrow of a branch passes behind a box exactly when the branch keeps to its
      columns. */
  lemma PassesIffKeeps(p: Plan, r: nat)
    requires PlanOk(p) && r < |p.rows|
    ensures BranchPasses(p, r) <==> BranchKeeps(p, r)
  {
    hide BoxOf, ArrowPoints, Keeps, Enters, PlanOk;
    if BranchKeeps(p, r) {
      forall k: nat, m | HasArrow(p, Out(r, k)) && HasMark(p, m)
        ensures !Enters(ArrowPoints(p, Out(r, k))[0], ArrowPoints(p, Out(r, k))[1], BoxOf(p, m))
      {
        OutPassesNone(p, Out(r, k), m);
      }
    }
    if !BranchKeeps(p, r) {
      var k: nat :| HasMark(p, Hung(r, k)) && !Keeps(p, r, k);
      WidePasses(p, r, k);
    }
  }

  /** From one column to another, none nearer than the first. */
  function Way(p: Plan, i: nat, j: nat): real
    requires i <= j
  {
    if i == j then 0.0 else Way(p, i, j - 1) + Pitch(p, j - 1)
  }

  lemma {:induction false} WayIs(p: Plan, i: nat, j: nat)
    requires i <= j
    ensures ColumnX(p.rows, p.sideW, Right(p.rows), j) == ColumnX(p.rows, p.sideW, Right(p.rows), i) + Way(p, i, j)
    decreases j
  {
    if i < j {
      WayIs(p, i, j - 1);
    }
  }

  /** The box the j-th arrow of a branch leaves reaches back over the k-th arrow: past where
      that starts or ends, whichever is nearer, and the k-th is no mere point. */
  predicate RunsBack(p: Plan, r: nat, j: nat, k: nat)
    requires j < k && HasArrow(p, Out(r, k))
  {
    var links := p.rows[r].chain;
    && j > 0 && links[j - 1].w > Way(p, j - 1, k - 1) + Min(links[k - 1].w, Pitch(p, k - 1))
    && links[k - 1].w != Pitch(p, k - 1)
  }

  /** Or ends just where the k-th arrow starts or ends. */
  predicate EndsAt(p: Plan, r: nat, j: nat, k: nat)
    requires j < k && HasArrow(p, Out(r, k))
  {
    var links := p.rows[r].chain;
    j > 0 && (links[j - 1].w == Way(p, j - 1, k - 1) + links[k - 1].w || links[j - 1].w == Way(p, j - 1, k))
  }

  /** Two arrows of one branch, the inner running back over the outer. */
  predicate BranchTogether(p: Plan, a: Arrow, b: Arrow)
    requires HasArrow(p, a) && HasArrow(p, b)
  {
    OneBranch(a, b) && if a.k < b.k then RunsBack(p, a.r, a.k, b.k) else b.k < a.k && RunsBack(p, a.r, b.k, a.k)
  }

  predicate BranchEnds(p: Plan, a: Arrow, b: Arrow)
    requires HasArrow(p, a) && HasArrow(p, b)
  {
    OneBranch(a, b) && if a.k < b.k then EndsAt(p, a.r, a.k, b.k) else b.k < a.k && EndsAt(p, a.r, b.k, a.k)
  }

  /** Two straight routes share an end. */
  predicate Touching(u: seq<Point>, v: seq<Point>)
    requires |u| == |v| == 2
  {
    u[0] == v[0] || u[0] == v[1] || u[1] == v[0] || u[1] == v[1]
  }

  /** They share neither a stretch nor an end. */
  predicate Separate(u: seq<Point>, v: seq<Point>)
    requires |u| == |v| == 2
  {
    !Collinear(u[0], u[1], v[0], v[1]) && !Touching(u, v)
  }

  /** Two arrows never cross. They run on top of each other, or share an end, exactly when
      they are of one branch and the inner one's box reaches that far back; so never in a
      branch that keeps to its columns. */
  lemma ArrowsApart(p: Plan, a: Arrow, b: Arrow)
    requires PlanOk(p) && HasArrow(p, a) && HasArrow(p, b) && a != b
    ensures var u, v := ArrowPoints(p, a), ArrowPoints(p, b);
            && !Cut(u[0], u[1], v[0], v[1])
            && (Collinear(u[0], u[1], v[0], v[1]) <==> BranchTogether(p, a, b))
            && (Touching(u, v) <==> BranchEnds(p, a, b))
            && ((OneBranch(a, b) ==> BranchKeeps(p, a.r)) ==> Separate(u, v))
  {
    hide BoxOf, ArrowPoints, BranchKeeps, PlanOk, Leaves, RunsBack, EndsAt;
    ArrowRuns(p, a);
    ArrowRuns(p, b);
    if a.Down? && b.Down? {
      DownsApart(p, if a.r < b.r then a.r else b.r, if a.r < b.r then b.r else a.r);
    } else if OneBranch(a, b) {
      OutPair(p, a.r, if a.k < b.k then a.k else b.k, if a.k < b.k then b.k else a.k);
      if BranchKeeps(p, a.r) {
        OutsApart(p, a, b);
      }
    } else if a.Out? && b.Out? {
      OutsApart(p, a, b);
    }
  }

  /** Where an arrow out starts and ends, across. */
  lemma OutAcross(p: Plan, r: nat, k: nat)
    requires PlanOk(p) && HasArrow(p, Out(r, k))
    ensures var q := ArrowPoints(p, Out(r, k));
            && q[1].x == ColumnX(p.rows, p.sideW, Right(p.rows), k) && q[0].y == q[1].y == Mid(p.rows, r)
            && (if k == 0 then q[0].x < q[1].x
                else q[0].x == ColumnX(p.rows, p.sideW, Right(p.rows), k - 1) + p.rows[r].chain[k - 1].w)
    ensures k > 0 ==> p.rows[r].chain[k - 1].w >= 16.0
  {
    hide ColumnX, Mid, Top, Right, RowHeight;
    OutRuns(p, r, k);
    if k > 0 {
      RowOf(p, Hung(r, k - 1));
    }
  }

  lemma OutPair(p: Plan, r: nat, j: nat, k: nat)
    requires PlanOk(p) && HasArrow(p, Out(r, k)) && j < k
    ensures var u, v := ArrowPoints(p, Out(r, j)), ArrowPoints(p, Out(r, k));
            && (Collinear(u[0], u[1], v[0], v[1]) <==> RunsBack(p, r, j, k))
            && (Touching(u, v) <==> EndsAt(p, r, j, k))
            && !Cut(u[0], u[1], v[0], v[1])
  {
    hide ArrowPoints, BoxOf, ColumnX, Mid, Pitch, PlanOk, Way, Right;
    OutAcross(p, r, j);
    OutAcross(p, r, k);
    ColumnsApart(p, j, k - 1);
    ColumnsApart(p, k - 1, k);
    assert Way(p, k - 1, k) == Pitch(p, k - 1) by { OnePitch(p, k - 1); }
    if j > 0 {
      ColumnsApart(p, j - 1, k - 1);
      ColumnsApart(p, j - 1, k);
    }
  }

  lemma OnePitch(p: Plan, k: nat)
    ensures Way(p, k, k + 1) == Pitch(p, k)
  {
    hide Pitch;
    assert Way(p, k, k) == 0.0;
  }

  lemma {:induction false} ColumnsApart(p: Plan, i: nat, j: nat)
    requires PlanOk(p) && i <= j
    ensures ColumnX(p.rows, p.sideW, Right(p.rows), j) == ColumnX(p.rows, p.sideW, Right(p.rows), i) + Way(p, i, j)
    ensures i < j ==> Way(p, i, j) >= 64.0
    ensures Way(p, i, j) >= 0.0
    decreases j
  {
    hide ColumnX, Right, ColumnGap, RowsOk;
    WayIs(p, i, j);
    if i < j {
      ColumnsApart(p, i, j - 1);
    }
  }

  // ---- an arrow behind a box ----

  /** An arrow of a branch runs behind a box of it by more than the inset: the node it leaves
      reaches back over that box, or that box reaches past where the arrow starts or ends,
      whichever is nearer. */
  predicate RunsBehind(p: Plan, r: nat, k: nat, m: Mark, inset: real)
    requires HasArrow(p, Out(r, k)) && HasMark(p, m)
  {
    && m.Hung? && m.r == r && k > 0
    && var links := p.rows[r].chain;
       if k <= m.k then links[k - 1].w > Way(p, k - 1, m.k) + inset
       else links[m.k].w > Way(p, m.k, k - 1) + Min(links[k - 1].w, Pitch(p, k - 1)) + inset
  }

  /** An arrow out passes behind a box, drawn in on every side by 1 or less, exactly then. */
  lemma OutBehind(p: Plan, a: Arrow, m: Mark, inset: real)
    requires PlanOk(p) && HasArrow(p, a) && a.Out? && HasMark(p, m) && 0.0 <= inset <= 1.0
    ensures Enters(ArrowPoints(p, a)[0], ArrowPoints(p, a)[1], Inset(BoxOf(p, m), inset))
            <==> RunsBehind(p, a.r, a.k, m, inset)
  {
    hide BoxOf, ArrowPoints, Leaves, RowsOk, Right, Top, Mid, ColumnX, Way, Pitch, Inset, Enters, RunsBehind, PlanOk;
    if m.Hung? && m.r == a.r {
      if a.k == 0 {
        FirstBehind(p, a.r, m, inset);
      } else {
        NextBehind(p, a.r, a.k, m.k, inset);
      }
    } else {
      OutPassesNone(p, a, m);
      InsetWithin(ArrowPoints(p, a)[0], ArrowPoints(p, a)[1], BoxOf(p, m), inset);
      NotBehind(p, a.r, a.k, m, inset);
    }
  }

  lemma InsetWithin(a: Point, b: Point, r: Rect, inset: real)
    requires !Enters(a, b, r) && inset >= 0.0
    ensures !Enters(a, b, Inset(r, inset))
  {
  }

  lemma NotBehind(p: Plan, r: nat, k: nat, m: Mark, inset: real)
    requires HasArrow(p, Out(r, k)) && HasMark(p, m) && (m.Hung? ==> m.r != r)
    ensures !RunsBehind(p, r, k, m, inset)
  {
  }

  /** Where a branch's box stands, across and up. */
  lemma HungAt(p: Plan, r: nat, k: nat)
    requires PlanOk(p) && HasMark(p, Hung(r, k))
    ensures var b := BoxOf(p, Hung(r, k));
            && b.x == ColumnX(p.rows, p.sideW, Right(p.rows), k) && b.w == p.rows[r].chain[k].w >= 16.0
            && b.y + b.h / 2.0 == Mid(p.rows, r) && b.h >= 16.0
  {
    hide ColumnX, Mid, Top, Right, RowHeight;
    RowOf(p, Hung(r, k));
  }

  lemma FirstBehind(p: Plan, r: nat, m: Mark, inset: real)
    requires PlanOk(p) && HasArrow(p, Out(r, 0)) && HasMark(p, m) && m.Hung? && m.r == r && 0.0 <= inset <= 1.0
    ensures !Enters(ArrowPoints(p, Out(r, 0))[0], ArrowPoints(p, Out(r, 0))[1], Inset(BoxOf(p, m), inset))
    ensures !RunsBehind(p, r, 0, m, inset)
  {
    hide BoxOf, ArrowPoints, Right, Mid, ColumnX, Way, PlanOk;
    OutAcross(p, r, 0);
    HungAt(p, r, m.k);
    ColumnsApart(p, 0, m.k);
  }

  lemma NextBehind(p: Plan, r: nat, k: nat, j: nat, inset: real)
    requires PlanOk(p) && HasArrow(p, Out(r, k)) && k > 0 && HasMark(p, Hung(r, j)) && 0.0 <= inset <= 1.0
    ensures Enters(ArrowPoints(p, Out(r, k))[0], ArrowPoints(p, Out(r, k))[1], Inset(BoxOf(p, Hung(r, j)), inset))
            <==> RunsBehind(p, r, k, Hung(r, j), inset)
  {
    hide BoxOf, ArrowPoints, Right, Mid, ColumnX, Way, Pitch, PlanOk;
    OutAcross(p, r, k);
    HungAt(p, r, j);
    ColumnsApart(p, k - 1, k);
    assert Way(p, k - 1, k) == Pitch(p, k - 1) by { OnePitch(p, k - 1); }
    if j < k {
      ColumnsApart(p, j, k - 1);
    } else {
      ColumnsApart(p, k - 1, j);
      ColumnsApart(p, k, j);
    }
  }

  predicate OneBranch(a: Arrow, b: Arrow) {
    a.Out? && b.Out? && a.r == b.r
  }

  lemma DownsApart(p: Plan, r: nat, t: nat)
    requires PlanOk(p) && HasArrow(p, Down(r)) && HasArrow(p, Down(t)) && r < t
    ensures ArrowPoints(p, Down(r))[1].y + 16.0 <= ArrowPoints(p, Down(t))[0].y
  {
    hide Mid, RowsOk;
    BoxInRow(p, OnPath(t));
    if r + 1 < t {
      BoxInRow(p, OnPath(r + 1));
      MarkRowsApart(p, OnPath(r + 1), OnPath(t));
    }
  }

  lemma OutsApart(p: Plan, a: Arrow, b: Arrow)
    requires PlanOk(p) && HasArrow(p, a) && HasArrow(p, b) && a.Out? && b.Out? && a != b
    requires a.r == b.r ==> BranchKeeps(p, a.r)
    ensures var u, v := ArrowPoints(p, a), ArrowPoints(p, b);
            u[0].y != v[0].y
            || (u[0].x <= u[1].x && v[0].x <= v[1].x && (u[1].x < v[0].x || v[1].x < u[0].x))
  {
    if a.r < b.r {
      RowsApart(p.rows, a.r, b.r);
    } else if b.r < a.r {
      RowsApart(p.rows, b.r, a.r);
    } else if a.k < b.k {
      OutAfter(p, a.r, a.k, b.k);
    } else {
      OutAfter(p, a.r, b.k, a.k);
    }
  }

  lemma OutAfter(p: Plan, r: nat, j: nat, k: nat)
    requires PlanOk(p) && HasArrow(p, Out(r, k)) && j < k && BranchKeeps(p, r)
    ensures var u, v := ArrowPoints(p, Out(r, j)), ArrowPoints(p, Out(r, k));
            u[0].x <= u[1].x < v[0].x <= v[1].x
  {
    hide PlanOk, BranchKeeps, Keeps, Leaves, Top, Mid, RowHeight, ArrowPoints, BoxOf, Pitch;
    OutBeside(p, Out(r, j), Hung(r, j));
    OutBeside(p, Out(r, k), Hung(r, k));
    OutRuns(p, r, j);
    OutRuns(p, r, k);
    BoxInRow(p, Hung(r, k - 1));
    if j < k - 1 {
      ChainAcross(p, r, j, k - 1);
    }
  }
}
