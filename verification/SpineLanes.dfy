// The lanes on the left of a flow's main path: shortest span innermost, two at a box
// one above the other (the spans, span, port and lx of layoutSpine,
// ui/src/diagramLayout.ts).
module SpineLanes {
  import opened Geometry
  import opened Routes
  import opened Sorting
  import opened Flow

  /** A lane: its edge, the rows of the path it leaves and enters, and its label. */
  datatype Lane = Lane(edge: nat, a: nat, b: nat, text: Option<LabelSize>)

  /** Row by row: its middle, the left side of its box, and whether the box takes one
      lane only. */
  datatype Side = Side(mids: seq<real>, lefts: seq<real>, single: seq<bool>)

  predicate Meets(l: Lane, r: int) {
    l.a == r || l.b == r
  }

  /** The lanes that meet a row, in order. */
  function Meeting(lanes: seq<Lane>, r: int): (at: seq<nat>)
    ensures forall k: nat :: k in at <==> k < |lanes| && Meets(lanes[k], r)
    ensures forall i, j :: 0 <= i < j < |at| ==> at[i] < at[j]
    ensures forall i :: 0 <= i < |at| ==> at[i] < |lanes|
  {
    if lanes == [] then []
    else
      var last := |lanes| - 1;
      var before := Meeting(lanes[..last], r);
      assert forall i :: 0 <= i < |before| ==> before[i] in before;
      before + if Meets(lanes[last], r) then [last] else []
  }

  predicate Within(mids: seq<real>, l: Lane) {
    l.a < |mids| && l.b < |mids|
  }

  function Lo(mids: seq<real>, l: Lane): real {
    if Within(mids, l) then Min(mids[l.a], mids[l.b]) else 0.0
  }

  function Hi(mids: seq<real>, l: Lane): real {
    if Within(mids, l) then Max(mids[l.a], mids[l.b]) else 0.0
  }

  function Shorter(mids: seq<real>): (Lane, Lane) -> bool {
    (p: Lane, q: Lane) =>
      var d := Hi(mids, p) - Lo(mids, p) - (Hi(mids, q) - Lo(mids, q));
      d < 0.0 || (d == 0.0 && p.edge <= q.edge)
  }

  /** The lanes from the innermost out. */
  function Nested(mids: seq<real>, lanes: seq<Lane>): seq<Lane> {
    SortBy(Shorter(mids), lanes)
  }

  /** Rows at least 40 apart, lanes between two different ones, and no more at a box
      than it takes. */
  ghost predicate Fitting(s: Side, lanes: seq<Lane>) {
    && |s.mids| == |s.lefts| == |s.single|
    && (forall r, t :: 0 <= r < t < |s.mids| ==> s.mids[r] + 40.0 <= s.mids[t])
    && (forall l <- lanes :: l.a != l.b && l.a < |s.mids| && l.b < |s.mids|)
    && (forall r :: 0 <= r < |s.mids| ==> |Meeting(lanes, r)| <= if s.single[r] then 1 else 2)
  }

  /** Where a lane meets a row's box: of two, the one heading up above the other; two
      heading the same way nest. */
  function Port(s: Side, order: seq<Lane>, k: nat, r: nat): real
    requires r < |s.mids| == |s.single|
  {
    var at := Meeting(order, r);
    if s.single[r] || |at| < 2 then s.mids[r]
    else
      var upper := if Hi(s.mids, order[at[0]]) == s.mids[r] then at[0] else at[1];
      s.mids[r] + if upper == k then -8.0 else 8.0
  }

  function From(s: Side, order: seq<Lane>, k: nat): real
    requires k < |order| && Within(s.mids, order[k]) && |s.mids| == |s.single|
  {
    Port(s, order, k, order[k].a)
  }

  function To(s: Side, order: seq<Lane>, k: nat): real
    requires k < |order| && Within(s.mids, order[k]) && |s.mids| == |s.single|
  {
    Port(s, order, k, order[k].b)
  }

  /** A lane's label, beside a line at x: along it when that is long enough, else level
      with where the lane leaves. */
  function LabelAt(text: LabelSize, x: real, y0: real, y1: real): Rect {
    var w, h := text.w as real, text.h as real;
    if |text.lines| == 1 && Max(y0, y1) - Min(y0, y1) >= w + 16.0 then
      Rect(x - LABEL_GAP as real - h, (y0 + y1) / 2.0 - w / 2.0, h, w)
    else
      Rect(x - LABEL_GAP as real - w, y0 - h / 2.0, w, h)
  }

  /** What a lane keeps to its left, its label with it. */
  function Room(text: Option<LabelSize>, y0: real, y1: real): real {
    LANE as real + if text.Some? then LabelAt(text.value, 0.0, y0, y1).w + LABEL_GAP as real else 0.0
  }

  /** Where the k-th lane runs. */
  function LaneX(s: Side, order: seq<Lane>, left: real, k: nat): real
    requires k <= |order| && |s.mids| == |s.single| && forall l <- order :: Within(s.mids, l)
  {
    if k == 0 then left - 32.0
    else LaneX(s, order, left, k - 1) - Room(order[k - 1].text, From(s, order, k - 1), To(s, order, k - 1))
  }

  datatype Route = Route(points: seq<Point>, caption: Option<Rect>)

  function RouteOf(s: Side, order: seq<Lane>, left: real, k: nat): (r: Route)
    requires k < |order| && |s.mids| == |s.lefts| == |s.single| && forall l <- order :: Within(s.mids, l)
    ensures |r.points| == 4
  {
    var l, x, y0, y1 := order[k], LaneX(s, order, left, k), From(s, order, k), To(s, order, k);
    Route([Point(s.lefts[l.a], y0), Point(x, y0), Point(x, y1), Point(s.lefts[l.b], y1)],
              if l.text.Some? then Some(LabelAt(l.text.value, x, y0, y1)) else None)
  }

  lemma NestedKeeps(mids: seq<real>, lanes: seq<Lane>)
    ensures |Nested(mids, lanes)| == |lanes| && forall l :: l in Nested(mids, lanes) <==> l in lanes
  {
    SortKeeps(Shorter(mids), lanes);
  }

  lemma RoomBeside(text: Option<LabelSize>, x: real, y0: real, y1: real)
    ensures Room(text, y0, y1)
            == LANE as real + if text.Some? then LabelAt(text.value, x, y0, y1).w + LABEL_GAP as real else 0.0
  {
  }

  /** The lanes laid from the innermost out, each left of the last. */
  method LayLanes(s: Side, lanes: seq<Lane>, left: real) returns (order: seq<Lane>, routes: seq<Route>)
    requires |s.mids| == |s.lefts| == |s.single| && forall l <- lanes :: Within(s.mids, l)
    ensures order == Nested(s.mids, lanes) && forall l <- order :: Within(s.mids, l)
    ensures |routes| == |order| && forall k: nat :: k < |order| ==> routes[k] == RouteOf(s, order, left, k)
  {
    order := Nested(s.mids, lanes);
    NestedKeeps(s.mids, lanes);
    hide Nested, Port, Room, Meeting;
    routes := [];
    var x := left - 32.0;
    for k := 0 to |order|
      invariant |routes| == k && x == LaneX(s, order, left, k)
      invariant forall j: nat :: j < k ==> routes[j] == RouteOf(s, order, left, j)
    {
      var l := order[k];
      assert l in order;
      var y0, y1 := Port(s, order, k, l.a), Port(s, order, k, l.b);
      ghost var w := Room(l.text, y0, y1);
      assert w == LANE as real + (if l.text.Some? then LabelAt(l.text.value, x, y0, y1).w + LABEL_GAP as real else 0.0)
      by {
        RoomBeside(l.text, x, y0, y1);
      }
      var caption := if l.text.Some? then Some(LabelAt(l.text.value, x, y0, y1)) else None;
      var points := [Point(s.lefts[l.a], y0), Point(x, y0), Point(x, y1), Point(s.lefts[l.b], y1)];
      routes := routes + [Route(points, caption)];
      x := x - LANE as real - if caption.Some? then caption.value.w + LABEL_GAP as real else 0.0;
    }
  }

  // ---- the order ----

  lemma {:induction false} InsertMeeting(le: (Lane, Lane) -> bool, sorted: seq<Lane>, l: Lane, r: int)
    ensures |Meeting(InsertBy(le, sorted, l), r)| == |Meeting(sorted, r)| + if Meets(l, r) then 1 else 0
  {
    if sorted == [] {
      assert [l][..0] == [];
    } else {
      var last := |sorted| - 1;
      if le(sorted[last], l) {
        assert (sorted + [l])[..last + 1] == sorted;
      } else {
        InsertMeeting(le, sorted[..last], l, r);
        var inner := InsertBy(le, sorted[..last], l);
        assert (inner + [sorted[last]])[..|inner|] == inner;
      }
    }
  }

  lemma {:induction false} SortMeeting(le: (Lane, Lane) -> bool, lanes: seq<Lane>, r: int)
    ensures |Meeting(SortBy(le, lanes), r)| == |Meeting(lanes, r)|
  {
    if lanes != [] {
      var last := |lanes| - 1;
      SortMeeting(le, lanes[..last], r);
      InsertMeeting(le, SortBy(le, lanes[..last]), lanes[last], r);
    }
  }

  /** Nested inside out, the lanes still fit, and none is longer than one outside it. */
  lemma NestedFits(s: Side, lanes: seq<Lane>)
    requires Fitting(s, lanes)
    ensures Fitting(s, Nested(s.mids, lanes)) && |Nested(s.mids, lanes)| == |lanes|
    ensures Sorted(Shorter(s.mids), Nested(s.mids, lanes))
  {
    var le := Shorter(s.mids);
    SortKeeps(le, lanes);
    assert TotalPreorder(le);
    SortOrders(le, lanes);
    forall r | 0 <= r < |s.mids| ensures |Meeting(SortBy(le, lanes), r)| <= if s.single[r] then 1 else 2 {
      SortMeeting(le, lanes, r);
    }
  }

  // ---- the ports ----

  lemma PortNear(s: Side, order: seq<Lane>, k: nat, r: nat)
    requires r < |s.mids| == |s.single|
    ensures s.mids[r] - 8.0 <= Port(s, order, k, r) <= s.mids[r] + 8.0
    ensures s.single[r] ==> Port(s, order, k, r) == s.mids[r]
  {
  }

  lemma TwoOnly(at: seq<nat>, j: nat, k: nat)
    requires j < k && j in at && k in at && |at| <= 2 && forall x, y :: 0 <= x < y < |at| ==> at[x] < at[y]
    ensures at == [j, k]
  {
    assert |at| == 2 ==> at == [at[0], at[1]];
  }

  lemma BothMeeting(s: Side, order: seq<Lane>, j: nat, k: nat, r: nat)
    requires Fitting(s, order) && j < k < |order| && r < |s.mids| && Meets(order[j], r) && Meets(order[k], r)
    ensures !s.single[r] && Meeting(order, r) == [j, k]
  {
    var at := Meeting(order, r);
    assert |at| <= if s.single[r] then 1 else 2;
    TwoOnly(at, j, k);
  }

  /** Two lanes at one box: the inner one on the side its other end lies. */
  lemma SharedPorts(s: Side, order: seq<Lane>, j: nat, k: nat, r: nat)
    requires Fitting(s, order) && j < k < |order| && r < |s.mids| && Meets(order[j], r) && Meets(order[k], r)
    ensures var up := Hi(s.mids, order[j]) == s.mids[r];
            && Port(s, order, j, r) == s.mids[r] + (if up then -8.0 else 8.0)
            && Port(s, order, k, r) == s.mids[r] + (if up then 8.0 else -8.0)
  {
    BothMeeting(s, order, j, k, r);
  }

  /** The same row, or 40 apart. */
  lemma RowsApart(s: Side, r: nat, t: nat)
    requires r < |s.mids| && t < |s.mids| && forall r, t :: 0 <= r < t < |s.mids| ==> s.mids[r] + 40.0 <= s.mids[t]
    ensures r == t || s.mids[r] + 40.0 <= s.mids[t] || s.mids[t] + 40.0 <= s.mids[r]
  {
  }

  lemma LongerOutside(s: Side, order: seq<Lane>, j: nat, k: nat)
    requires Fitting(s, order) && Sorted(Shorter(s.mids), order) && j < k < |order|
    ensures Hi(s.mids, order[j]) - Lo(s.mids, order[j]) <= Hi(s.mids, order[k]) - Lo(s.mids, order[k])
  {
    assert Shorter(s.mids)(order[j], order[k]);
  }

  /** Two spans overlap, neither holding the other. */
  predicate Properly(mids: seq<real>, p: Lane, q: Lane) {
    || Lo(mids, p) < Lo(mids, q) < Hi(mids, p) < Hi(mids, q)
    || Lo(mids, q) < Lo(mids, p) < Hi(mids, q) < Hi(mids, p)
  }

  /** The outer lane's stub at row r cuts the inner lane's line exactly when that row is
      strictly inside the inner span. */
  lemma StubCuts(s: Side, order: seq<Lane>, j: nat, k: nat, r: nat)
    requires Fitting(s, order) && j < k < |order| && r < |s.mids| && Meets(order[k], r) && order[j] in order
             && order[k] in order
    ensures Between(Port(s, order, k, r), From(s, order, j), To(s, order, j))
            <==> Lo(s.mids, order[j]) < s.mids[r] < Hi(s.mids, order[j])
  {
    hide Port, Meeting;
    var a, b := order[j].a, order[j].b;
    PortNear(s, order, k, r);
    PortNear(s, order, j, a);
    PortNear(s, order, j, b);
    RowsApart(s, r, a);
    RowsApart(s, r, b);
    RowsApart(s, a, b);
    if r == a || r == b {
      SharedPorts(s, order, j, k, r);
    }
  }

  lemma EndInside(s: Side, order: seq<Lane>, j: nat, k: nat)
    requires Fitting(s, order) && Sorted(Shorter(s.mids), order) && j < k < |order|
    requires order[j] in order && order[k] in order
    ensures (exists r: nat ::
             r < |s.mids| && Meets(order[k], r) && Lo(s.mids, order[j]) < s.mids[r] < Hi(s.mids, order[j]))
            <==> Properly(s.mids, order[j], order[k])
  {
    LongerOutside(s, order, j, k);
    var a, b := order[k].a, order[k].b;
    if Properly(s.mids, order[j], order[k]) {
      var r := if Lo(s.mids, order[j]) < s.mids[a] < Hi(s.mids, order[j]) then a else b;
      assert Meets(order[k], r);
    }
  }

  // ---- the routes ----

  ghost predicate Leftmost(s: Side, left: real) {
    forall r :: 0 <= r < |s.lefts| ==> left <= s.lefts[r]
  }

  /** Each lane runs left of every box and of every lane inside it. */
  lemma {:induction false} LanesOutward(s: Side, order: seq<Lane>, left: real, j: nat, k: nat)
    requires j <= k <= |order| && |s.mids| == |s.single| && forall l <- order :: Within(s.mids, l)
    requires forall l <- order :: l.text.Some? ==> l.text.value.w >= 0 && l.text.value.h >= 0
    ensures LaneX(s, order, left, k) <= left - 32.0
    ensures LaneX(s, order, left, k)
            <= LaneX(s, order, left, j) - if j < k then Room(order[j].text, From(s, order, j), To(s, order, j)) else 0.0
    decreases k
  {
    hide Port;
    if k > 0 {
      assert order[k - 1] in order;
      LanesOutward(s, order, left, if j < k then j else 0, k - 1);
    }
  }

  ghost predicate Texts(order: seq<Lane>) {
    forall l <- order :: l.text.Some? ==> l.text.value.w >= 0 && l.text.value.h >= 0
  }

  /** Of two lanes in their shape, only the outer one's stubs can meet the inner one. */
  lemma StubsOnly(p: seq<Point>, q: seq<Point>, xp: real, xq: real)
    requires |p| == 4 && p[1].x == p[2].x == xp && p[0].y == p[1].y && p[2].y == p[3].y && xp < p[0].x && xp < p[3].x
    requires |q| == 4 && q[1].x == q[2].x == xq && q[0].y == q[1].y && q[2].y == q[3].y
    requires xq < xp && xp < q[0].x && xp < q[3].x && q[0].y != q[3].y && p[0].y != p[3].y
    ensures RoutesCut(p, q) <==> Between(q[0].y, p[0].y, p[3].y) || Between(q[3].y, p[0].y, p[3].y)
  {
    if Between(q[0].y, p[0].y, p[3].y) {
      assert CutAt(p, q, 1, 0);
    }
    if Between(q[3].y, p[0].y, p[3].y) {
      assert CutAt(p, q, 1, 2);
    }
    forall i: nat, j: nat | CutAt(p, q, i, j)
      ensures Between(q[0].y, p[0].y, p[3].y) || Between(q[3].y, p[0].y, p[3].y)
    {
      OneStub(p, q, xp, xq, i, j);
    }
  }

  lemma OneStub(p: seq<Point>, q: seq<Point>, xp: real, xq: real, i: nat, j: nat)
    requires |p| == 4 && p[1].x == p[2].x == xp && p[0].y == p[1].y && p[2].y == p[3].y && xp < p[0].x && xp < p[3].x
    requires |q| == 4 && q[1].x == q[2].x == xq && q[0].y == q[1].y && q[2].y == q[3].y
    requires xq < xp && xp < q[0].x && xp < q[3].x && q[0].y != q[3].y && p[0].y != p[3].y
    requires CutAt(p, q, i, j)
    ensures i == 1 && (j == 0 || j == 2)
    ensures Between(q[j].y, p[0].y, p[3].y)
  {
    assert i < 3 && j < 3;
  }

  lemma OwnPorts(s: Side, order: seq<Lane>, k: nat)
    requires Fitting(s, order) && k < |order| && order[k] in order
    ensures From(s, order, k) != To(s, order, k)
  {
    hide Port;
    PortNear(s, order, k, order[k].a);
    PortNear(s, order, k, order[k].b);
    RowsApart(s, order[k].a, order[k].b);
  }

  /** What a lane's route looks like beside one outside it. */
  lemma LaneShape(s: Side, order: seq<Lane>, left: real, j: nat, k: nat)
    requires Fitting(s, order) && Texts(order) && Leftmost(s, left) && j <= k < |order|
    ensures order[j] in order && order[k] in order
    ensures var p, x := RouteOf(s, order, left, j).points, LaneX(s, order, left, j);
            && p[1].x == p[2].x == x && p[0].y == p[1].y == From(s, order, j) && p[2].y == p[3].y == To(s, order, j)
            && x <= left - 32.0 && left <= p[0].x && left <= p[3].x && p[0].y != p[3].y
            && (j < k ==> LaneX(s, order, left, k) <= x - 12.0)
  {
    assert order[j] in order && order[k] in order;
    OwnPorts(s, order, j);
    LanesOutward(s, order, left, j, k);
    LanesOutward(s, order, left, 0, j);
    RoomLeft(s, order, j);
    hide Port, Room, LaneX;
  }

  /** Two lanes cross exactly when their spans properly overlap: none do when every two
      spans are nested or share no more than an end. */
  lemma LanesCross(s: Side, order: seq<Lane>, left: real, j: nat, k: nat)
    requires Fitting(s, order) && Sorted(Shorter(s.mids), order) && Texts(order) && Leftmost(s, left) && j < k < |order|
    ensures RoutesCut(RouteOf(s, order, left, j).points, RouteOf(s, order, left, k).points)
            <==> Properly(s.mids, order[j], order[k])
  {
    hide From, To, Port, LaneX, Properly, RoutesCut, Sorted, Texts, Leftmost, Between, Meeting, Lo, Hi, Shorter;
    LaneShape(s, order, left, j, k);
    LaneShape(s, order, left, k, k);
    StubsMeet(s, order, j, k);
    StubsOnly(RouteOf(s, order, left, j).points, RouteOf(s, order, left, k).points,
              LaneX(s, order, left, j), LaneX(s, order, left, k));
  }

  lemma StubsMeet(s: Side, order: seq<Lane>, j: nat, k: nat)
    requires Fitting(s, order) && Sorted(Shorter(s.mids), order) && j < k < |order| && order[j] in order
             && order[k] in order
    ensures Properly(s.mids, order[j], order[k])
            <==> (|| Between(From(s, order, k), From(s, order, j), To(s, order, j))
                  || Between(To(s, order, k), From(s, order, j), To(s, order, j)))
  {
    var a, b := order[k].a, order[k].b;
    EndInside(s, order, j, k);
    StubCuts(s, order, j, k, a);
    StubCuts(s, order, j, k, b);
    hide Port, Between, Properly, Lo, Hi, Sorted, Meeting;
  }

  lemma RoomLeft(s: Side, order: seq<Lane>, k: nat)
    requires k < |order| && Texts(order) && |s.mids| == |s.single| && order[k] in order && Within(s.mids, order[k])
    ensures Room(order[k].text, From(s, order, k), To(s, order, k)) >= 12.0
  {
  }

  /** Two lanes never run on top of each other or share an attach point. */
  lemma LanesApart(s: Side, order: seq<Lane>, left: real, j: nat, k: nat)
    requires Fitting(s, order) && Texts(order) && Leftmost(s, left) && j < k < |order|
    ensures !RoutesTogether(RouteOf(s, order, left, j).points, RouteOf(s, order, left, k).points)
    ensures !EndsShared(RouteOf(s, order, left, j).points, RouteOf(s, order, left, k).points)
  {
    LaneShape(s, order, left, j, k);
    LaneShape(s, order, left, k, k);
    PortsDiffer(s, order, j, k, order[j].a, order[k].a);
    PortsDiffer(s, order, j, k, order[j].a, order[k].b);
    PortsDiffer(s, order, j, k, order[j].b, order[k].a);
    PortsDiffer(s, order, j, k, order[j].b, order[k].b);
    var p, q := RouteOf(s, order, left, j).points, RouteOf(s, order, left, k).points;
    hide From, To, Port, LaneX, RoutesTogether, Texts, Leftmost, Meeting;
    NeverTogether(p, q);
  }

  lemma NeverTogether(p: seq<Point>, q: seq<Point>)
    requires |p| == 4 && p[1].x == p[2].x && p[0].y == p[1].y && p[2].y == p[3].y && p[1].x < p[0].x && p[1].x < p[3].x
    requires |q| == 4 && q[1].x == q[2].x && q[0].y == q[1].y && q[2].y == q[3].y && q[1].x < q[0].x && q[1].x < q[3].x
    requires q[1].x < p[1].x && q[0].y != q[3].y && p[0].y != p[3].y
    requires p[0].y != q[0].y && p[0].y != q[3].y && p[3].y != q[0].y && p[3].y != q[3].y
    ensures !RoutesTogether(p, q)
  {
    forall u: nat, v: nat ensures !TogetherAt(p, q, u, v) {
      if u < 3 && v < 3 {
        assert u == 0 || u == 1 || u == 2;
        assert v == 0 || v == 1 || v == 2;
      }
    }
  }

  lemma PortsDiffer(s: Side, order: seq<Lane>, j: nat, k: nat, r: nat, t: nat)
    requires Fitting(s, order) && j < k < |order| && r < |s.mids| && t < |s.mids| && Meets(order[j], r)
             && Meets(order[k], t)
    ensures Port(s, order, j, r) != Port(s, order, k, t)
  {
    if r == t {
      SharedPorts(s, order, j, k, r);
    } else {
      hide Port;
      PortNear(s, order, j, r);
      PortNear(s, order, k, t);
      RowsApart(s, r, t);
    }
  }

  /** A lane's label is 8 clear of its own line, left of every box, and clear of the
      label of every lane inside it. */
  lemma LaneLabelsClear(s: Side, order: seq<Lane>, left: real, k: nat)
    requires Fitting(s, order) && Texts(order) && k < |order| && RouteOf(s, order, left, k).caption.Some?
    ensures var r, x := RouteOf(s, order, left, k).caption.value, LaneX(s, order, left, k);
            r.x + r.w == x - 8.0 && x <= left - 32.0
    ensures forall j: nat :: j < k && RouteOf(s, order, left, j).caption.Some? ==>
              !Overlaps(RouteOf(s, order, left, j).caption.value, RouteOf(s, order, left, k).caption.value)
  {
    hide Port, Lo, Hi, Meeting;
    LanesOutward(s, order, left, 0, k);
    forall j: nat | j < k && RouteOf(s, order, left, j).caption.Some?
      ensures !Overlaps(RouteOf(s, order, left, j).caption.value, RouteOf(s, order, left, k).caption.value)
    {
      LanesOutward(s, order, left, j, k);
      hide LaneX, Fitting;
      assert order[j] in order && order[k] in order;
    }
  }
}
