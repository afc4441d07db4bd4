// The exits of a mapping's arrows in the order they are taken, and the whole
// layout as it runs (layoutMapping in ui/src/diagramLayout.ts).
module MappingLayout {
  import opened Counting
  import opened Geometry
  import opened Routes
  import opened DiagramTheme
  import opened Sorting
  import opened Flow
  import opened MappingRows
  import opened MappingColumns
  import opened MappingExits
  import opened MappingLanes
  import opened FlowMapping
  import opened MappingArrows
  import opened MappingTriggers

  // ---- the order exits are taken in ----

  function StraightOnes(m: Mapping): seq<nat>
    requires m.Valid()
  {
    Picked(|m.ir.edges|, (i: nat) => i < |m.ir.edges| && Straight(m, i))
  }

  function BentOnes(m: Mapping): seq<nat>
    requires m.Valid()
  {
    Picked(|m.ir.edges|, (i: nat) => i < |m.ir.edges| && !Straight(m, i))
  }

  /** Bent arrows by their triggers' place in the source, then as written. */
  predicate BentBefore(m: Mapping, p: nat, q: nat)
    requires m.Valid()
  {
    if p >= |m.ir.edges| || q >= |m.ir.edges| then p <= q
    else Author(m, p) < Author(m, q) || (Author(m, p) == Author(m, q) && p <= q)
  }

  /** Straight arrows first, then the bent ones in order. */
  function ExitOrder(m: Mapping): seq<nat>
    requires m.Valid()
  {
    StraightOnes(m) + SortBy((p: nat, q: nat) => BentBefore(m, p, q), BentOnes(m))
  }

  predicate Arrows(m: Mapping, order: seq<nat>) {
    forall k :: 0 <= k < |order| ==> order[k] < |m.ir.edges|
  }

  lemma OnesSplit(m: Mapping)
    requires m.Valid()
    ensures forall i: nat :: i in StraightOnes(m) <==> i < |m.ir.edges| && Straight(m, i)
    ensures forall i: nat :: i in BentOnes(m) <==> i < |m.ir.edges| && !Straight(m, i)
    ensures Different(StraightOnes(m)) && Different(BentOnes(m))
  {
    hide IsMapping, Straight;
  }

  lemma {:induction false} SameMultisetDifferent(a: seq<nat>, b: seq<nat>)
    requires multiset(a) == multiset(b) && Different(a)
    ensures Different(b)
  {
    forall i, j | 0 <= i < j < |b| ensures b[i] != b[j] {
      if b[i] == b[j] {
        assert b == b[..i] + [b[i]] + b[i + 1..j] + [b[j]] + b[j + 1..];
        assert multiset(b)[b[i]] >= 2;
        assert multiset(a)[b[i]] >= 2;
        OnceOnly(a, b[i]);
        assert false;
      }
    }
  }

  lemma {:induction false} OnceOnly(a: seq<nat>, x: nat)
    requires Different(a)
    ensures multiset(a)[x] <= 1
  {
    if a != [] {
      var init, last := a[..|a| - 1], a[|a| - 1];
      OnceOnly(init, x);
      assert a == init + [last];
      if last == x {
        assert x !in init;
      }
    }
  }

  /** Every arrow takes its exit once, straight ones before bent ones. */
  lemma ExitOrderHolds(m: Mapping)
    requires m.Valid()
    ensures Arrows(m, ExitOrder(m)) && Different(ExitOrder(m))
    ensures forall i :: 0 <= i < |m.ir.edges| ==> i in ExitOrder(m)
    ensures forall j, k :: 0 <= j < k < |ExitOrder(m)| && Straight(m, ExitOrder(m)[k]) ==> Straight(m, ExitOrder(m)[j])
  {
    hide IsMapping, Straight, SortBy, BentBefore, StraightOnes, BentOnes;
    var n := |m.ir.edges|;
    var straight, bent := StraightOnes(m), BentOnes(m);
    var sorted := SortBy((p: nat, q: nat) => BentBefore(m, p, q), bent);
    OnesSplit(m);
    SortKeeps((p: nat, q: nat) => BentBefore(m, p, q), bent);
    SameMultisetDifferent(bent, sorted);
    var order := ExitOrder(m);
    assert order == straight + sorted;
    forall k | 0 <= k < |order| ensures order[k] in (if k < |straight| then straight else bent) {
      if k >= |straight| {
        assert order[k] == sorted[k - |straight|];
        assert order[k] in sorted;
      }
    }
    forall i | 0 <= i < n ensures i in order {
      assert i in straight || i in sorted;
    }
  }

  // ---- exits taken one after another ----

  /** The box an arrow leaves. */
  function SourceSlab(m: Mapping, i: nat): Slab
    requires m.Valid() && i < |m.ir.edges|
  {
    EdgeEnds(m, i);
    TriggerSlabs(m)[Position(m.Triggers(), m.ir.edges[i].from)]
  }

  /** The height arrow i leaves at once the arrows of taken have left. */
  function ExitAfter(m: Mapping, taken: seq<nat>, i: nat): int
    requires m.Valid() && i < |m.ir.edges| && Arrows(m, taken)
    decreases |taken|, 1
  {
    if Straight(m, i) then Entry(m, i)
    else NearestExit(SourceSlab(m, i), Entry(m, i), Exits(m, taken, m.ir.edges[i].from))
  }

  /** The heights a trigger's arrows among those taken have left at, in order. */
  function Exits(m: Mapping, taken: seq<nat>, s: string): seq<int>
    requires m.Valid() && Arrows(m, taken)
    decreases |taken|, 0
  {
    if taken == [] then []
    else
      var init, last := taken[..|taken| - 1], taken[|taken| - 1];
      Exits(m, init, s) + if m.ir.edges[last].from == s then [ExitAfter(m, init, last)] else []
  }

  /** The arrows of one trigger among those taken. */
  function TakenFrom(m: Mapping, taken: seq<nat>, s: string): (r: seq<nat>)
    requires m.Valid() && Arrows(m, taken)
    ensures forall i <- r :: i in taken && i < |m.ir.edges| && m.ir.edges[i].from == s
  {
    if taken == [] then []
    else
      var init, last := taken[..|taken| - 1], taken[|taken| - 1];
      TakenFrom(m, init, s) + if m.ir.edges[last].from == s then [last] else []
  }

  lemma {:induction false} ExitsPerArrow(m: Mapping, taken: seq<nat>, s: string)
    requires m.Valid() && Arrows(m, taken) && Different(taken)
    ensures |Exits(m, taken, s)| == |TakenFrom(m, taken, s)| && Different(TakenFrom(m, taken, s))
  {
    hide IsMapping, ExitAfter;
    if taken != [] {
      var init, last := taken[..|taken| - 1], taken[|taken| - 1];
      ExitsPerArrow(m, init, s);
      assert last !in init;
      var mine := TakenFrom(m, init, s);
      assert forall k :: 0 <= k < |mine| ==> mine[k] in mine;
    }
  }

  /** A trigger has taken fewer exits than it has arrows while one is still to come. */
  lemma FewerTaken(m: Mapping, taken: seq<nat>, i: nat)
    requires m.Valid() && Arrows(m, taken) && Different(taken) && i < |m.ir.edges| && i !in taken
    ensures |Exits(m, taken, m.ir.edges[i].from)| < |OutOf(m.ir.edges, m.ir.edges[i].from)|
  {
    hide IsMapping, Exits;
    var s := m.ir.edges[i].from;
    ExitsPerArrow(m, taken, s);
    var mine := TakenFrom(m, taken, s) + [i];
    forall k | 0 <= k < |TakenFrom(m, taken, s)| ensures TakenFrom(m, taken, s)[k] != i {
      assert TakenFrom(m, taken, s)[k] in TakenFrom(m, taken, s);
    }
    DifferentAmong(mine, OutOf(m.ir.edges, s));
  }

  predicate PairwiseApart(exits: seq<int>) {
    forall j, k :: 0 <= j < k < |exits| ==> Away(exits[j], exits[k]) >= APART
  }

  /** A trigger's box has the height set aside for its exits. */
  predicate Roomy(m: Mapping, s: nat)
    requires m.Valid()
  {
    s < |m.Triggers()| && TriggerSlabs(m)[s].h >= ExitRoom(|OutOf(m.ir.edges, m.Triggers()[s])|)
  }

  /** Every trigger spanning one row has. */
  lemma OneRowRoomy(m: Mapping, s: nat)
    requires m.Valid() && s < |m.Triggers()| && m.SpanOf(s).0 == m.SpanOf(s).1
    ensures Roomy(m, s)
  {
    hide IsMapping, AllRows, RowHeights, TriggerSlabs, Level, RowTop, ExitRoom;
    TriggerPlaced(m, s);
  }

  /** A bent arrow out of a trigger with room finds a free height: the search never falls
      back on the middle of the box. */
  lemma BentExitFree(m: Mapping, taken: seq<nat>, i: nat, s: nat)
    requires m.Valid() && Arrows(m, taken) && Different(taken) && i < |m.ir.edges| && i !in taken && !Straight(m, i)
    requires Roomy(m, s) && m.ir.edges[i].from == m.Triggers()[s]
    ensures var y, box := ExitAfter(m, taken, i), TriggerSlabs(m)[s];
            && Free(y, Exits(m, taken, m.ir.edges[i].from)) && box.y + CORNER <= y <= box.Foot() - CORNER
  {
    hide IsMapping, AllRows, Straight, TriggerSlabs, Exits, NearestExit, Entry, Span, Mapping.Triggers, ExitRoom;
    hide OutOf, Different, Free;
    FewerTaken(m, taken, i);
    TriggerTall(m, s);
    TriggersDistinct(m, s);
    RoomLeavesOneFree(TriggerSlabs(m)[s], Entry(m, i), Exits(m, taken, m.ir.edges[i].from),
                      |OutOf(m.ir.edges, m.ir.edges[i].from)|);
  }

  /** Among straight arrows every exit is free. */
  lemma {:induction false} StraightExitFree(m: Mapping, taken: seq<nat>, i: nat, s: string)
    requires m.Valid() && Arrows(m, taken) && i < |m.ir.edges| && i !in taken
    requires forall k :: 0 <= k < |taken| ==> Straight(m, taken[k])
    ensures Free(Entry(m, i), Exits(m, taken, s))
  {
    hide IsMapping, Straight, Entry;
    if taken != [] {
      var init, last := taken[..|taken| - 1], taken[|taken| - 1];
      assert last in taken;
      StraightExitFree(m, init, i, s);
      EntriesAway(m, last, i);
    }
  }

  /** All exits of a trigger with room stand at least 16 apart. */
  lemma {:induction false} RoomyExitsApart(m: Mapping, n: nat, s: nat)
    requires m.Valid() && n <= |ExitOrder(m)| && Roomy(m, s)
    ensures Arrows(m, ExitOrder(m)[..n]) && PairwiseApart(Exits(m, ExitOrder(m)[..n], m.Triggers()[s]))
  {
    hide IsMapping, AllRows, Straight, TriggerSlabs, Entry, Span, Mapping.Triggers, ExitAfter, ExitOrder, Roomy;
    ExitOrderHolds(m);
    assert s < |m.Triggers()| by { RoomyIs(m, s); }
    if n > 0 {
      RoomyExitsApart(m, n - 1, s);
      var order := ExitOrder(m);
      var taken, i := order[..n - 1], order[n - 1];
      assert order[..n][..n - 1] == taken;
      assert i !in taken;
      if m.ir.edges[i].from == m.Triggers()[s] {
        if Straight(m, i) {
          StraightExitFree(m, taken, i, m.Triggers()[s]);
          assert ExitAfter(m, taken, i) == Entry(m, i) by { StraightAfter(m, taken, i); }
        } else {
          BentExitFree(m, taken, i, s);
        }
      }
    }
  }

  lemma RoomyIs(m: Mapping, s: nat)
    requires m.Valid() && Roomy(m, s)
    ensures s < |m.Triggers()|
  {
  }

  lemma StraightAfter(m: Mapping, taken: seq<nat>, i: nat)
    requires m.Valid() && Arrows(m, taken) && i < |m.ir.edges| && Straight(m, i)
    ensures ExitAfter(m, taken, i) == Entry(m, i)
  {
  }

  // ---- the drawing ----

  /** The height arrow i leaves its trigger at. */
  function Exit(m: Mapping, i: nat): int
    requires m.Valid() && i < |m.ir.edges|
  {
    ExitOrderHolds(m);
    ExitAfter(m, ExitOrder(m)[..Position(ExitOrder(m), i)], i)
  }

  predicate Turns(m: Mapping, i: nat)
    requires m.Valid()
  {
    i < |m.ir.edges| && Exit(m, i) != Entry(m, i)
  }

  function TurningOnes(m: Mapping): seq<nat>
    requires m.Valid()
  {
    Picked(|m.ir.edges|, (i: nat) => Turns(m, i))
  }

  function TurnOf(m: Mapping, i: nat): Turn
    requires m.Valid() && i < |m.ir.edges|
  {
    Turn(MinI(Exit(m, i), Entry(m, i)), MaxI(Exit(m, i), Entry(m, i)))
  }

  predicate TurnBefore(m: Mapping, p: nat, q: nat)
    requires m.Valid()
  {
    if p >= |m.ir.edges| || q >= |m.ir.edges| then p <= q
    else TurnOf(m, p).lo < TurnOf(m, q).lo || (TurnOf(m, p).lo == TurnOf(m, q).lo && p <= q)
  }

  /** The arrows that turn, the topmost first. */
  function TurnOrder(m: Mapping): (r: seq<nat>)
    requires m.Valid()
    ensures forall i <- r :: i < |m.ir.edges|
  {
    SortKeeps((p: nat, q: nat) => TurnBefore(m, p, q), TurningOnes(m));
    SortBy((p: nat, q: nat) => TurnBefore(m, p, q), TurningOnes(m))
  }

  function TurnsOf(m: Mapping, order: seq<nat>): (turns: seq<Turn>)
    requires m.Valid() && forall i <- order :: i < |m.ir.edges|
    ensures |turns| == |order|
  {
    assert forall k :: 0 <= k < |order| ==> order[k] in order;
    seq(|order|, k requires 0 <= k < |order| => TurnOf(m, order[k]))
  }

  /** How many lanes the drawing opens between the frames. */
  function LaneCount(m: Mapping): nat
    requires m.Valid()
  {
    |Lanes(TurnsOf(m, TurnOrder(m)))|
  }

  function LaneIndex(m: Mapping, i: nat): nat
    requires m.Valid()
  {
    if i in TurnOrder(m) then LaneOf(TurnsOf(m, TurnOrder(m)), Position(TurnOrder(m), i)) else 0
  }

  const ZONE_SIDE := 20

  function TitleRoom(adv: Advance, title: string): int {
    UpTo(TextWidth(adv, title, RAMP_BOLD, Sans) + 36.0, 8)
  }

  /** How wide the first frame is: room for its boxes and for its title. */
  function FrameWidth(m: Mapping): (w: int)
    requires m.Valid()
    ensures w >= m.Width() + 2 * ZONE_SIDE
  {
    MaxI(m.Width() + 2 * ZONE_SIDE, TitleRoom(m.fonts.adv, m.ir.zones[0].title))
  }

  function FirstLane(m: Mapping): int
    requires m.Valid()
  {
    FrameWidth(m) + 24
  }

  function LastLane(m: Mapping): int
    requires m.Valid()
  {
    FirstLane(m) + MaxI(0, LaneCount(m) - 1) * LANE
  }

  function WidestArrowLabel(fonts: Fonts, edges: seq<FlowEdge>): (w: int)
    ensures w >= 0
  {
    if edges == [] then 0
    else MaxI(if edges[0].text != "" then LabelBox(fonts, edges[0].text).w else 0, WidestArrowLabel(fonts, edges[1..]))
  }

  /** Where the targets' boxes begin. */
  function TargetX(m: Mapping): (x: int)
    requires m.Valid()
    ensures x >= LastLane(m) + 32 + WidestArrowLabel(m.fonts, m.ir.edges)
  {
    var labelW := WidestArrowLabel(m.fonts, m.ir.edges);
    Up8(LastLane(m) + if labelW > 0 then 16 + labelW + 16 else 40)
  }

  /** A point on the pixel grid. */
  function At(x: int, y: int): Point {
    Point(x as real, y as real)
  }

  /** Where an arrow turns. */
  function LaneLine(m: Mapping, i: nat): int
    requires m.Valid()
  {
    FirstLane(m) + LaneIndex(m, i) * LANE
  }

  /** An arrow's route: straight across, or with one turn in its lane. */
  function Route(m: Mapping, i: nat): seq<Point>
    requires m.Valid() && i < |m.ir.edges|
  {
    Bend(ZONE_SIDE + m.Width(), LaneLine(m, i), TargetX(m), Exit(m, i), Entry(m, i))
  }

  function Bend(xs: int, lx: int, xt: int, y0: int, y1: int): (r: seq<Point>)
    ensures |r| == if y0 == y1 then 2 else 4
  {
    if y0 == y1 then [At(xs, y0), At(xt, y1)] else [At(xs, y0), At(lx, y0), At(lx, y1), At(xt, y1)]
  }

  lemma TurnOrderHolds(m: Mapping)
    requires m.Valid()
    ensures forall i: nat :: i in TurnOrder(m) <==> Turns(m, i)
    ensures ByTop(TurnsOf(m, TurnOrder(m))) && MappingLanes.Spans(TurnsOf(m, TurnOrder(m)))
  {
    hide IsMapping, Exit, Entry, SortBy;
    var le := (p: nat, q: nat) => TurnBefore(m, p, q);
    SortKeeps(le, TurningOnes(m));
    assert TotalPreorder(le);
    SortOrders(le, TurningOnes(m));
    var order := TurnOrder(m);
    assert forall k :: 0 <= k < |order| ==> order[k] in order;
    forall j, k | 0 <= j < k < |order| ensures TurnOf(m, order[j]).lo <= TurnOf(m, order[k]).lo {
      assert le(order[j], order[k]);
    }
  }

  /** A straight arrow crosses at one height; every other turns once, in its own
      lane between the two columns, without doubling back. */
  lemma RouteShape(m: Mapping, i: nat)
    requires m.Valid() && i < |m.ir.edges|
    ensures var r, n := Route(m, i), |Route(m, i)|;
            && (n == 2 || n == 4) && (Straight(m, i) ==> n == 2) && Square(r)
            && (forall k :: 1 <= k < n ==> r[k - 1].x <= r[k].x)
            && r[0] == At(ZONE_SIDE + m.Width(), Exit(m, i)) && r[n - 1] == At(TargetX(m), Entry(m, i))
  {
    hide IsMapping, Exits, NearestExit, Entry, TurnOrder, TurnsOf, Lanes, Exit, Straight, Mapping.Width, LaneLine;
    hide TargetX;
    LaneWithin(m, i);
    if Straight(m, i) {
      StraightExits(m, i);
    }
  }

  lemma StraightExits(m: Mapping, i: nat)
    requires m.Valid() && i < |m.ir.edges| && Straight(m, i)
    ensures Exit(m, i) == Entry(m, i)
  {
    hide IsMapping, Straight, ExitOrder;
    ExitOrderHolds(m);
  }

  /** An arrow's lane lies between the columns. */
  lemma LaneWithin(m: Mapping, i: nat)
    requires m.Valid() && i < |m.ir.edges|
    ensures ZONE_SIDE + m.Width() + 44 <= LaneLine(m, i) <= LastLane(m) && LastLane(m) + 32 <= TargetX(m)
  {
    hide IsMapping, Exit, Entry, TurnOrder, TurnsOf, Lanes, LaneOf, TargetX, FrameWidth;
    var k := LaneIndex(m, i);
    if i in TurnOrder(m) {
      LaneHolds(TurnsOf(m, TurnOrder(m)), Position(TurnOrder(m), i));
    }
    LaneBound(k, LaneCount(m));
  }

  lemma LaneBound(k: nat, n: nat)
    ensures k * LANE >= 0
    ensures k < n ==> k * LANE <= MaxI(0, n - 1) * LANE
    ensures MaxI(0, n - 1) * LANE >= 0
  {
  }

  /** Two arrows that turn in one lane never meet, and no way of sharing lanes needs
      fewer of them. */
  lemma LanesShared(m: Mapping, i: nat, j: nat)
    requires m.Valid() && Turns(m, i) && Turns(m, j) && i != j && LaneIndex(m, i) == LaneIndex(m, j)
    ensures MappingLanes.Clear(TurnOf(m, i), TurnOf(m, j))
  {
    hide IsMapping, Exit, Entry, SortBy, TurnOrder, LaneOf;
    TurnOrderHolds(m);
    var order := TurnOrder(m);
    var turns := TurnsOf(m, order);
    var p, q := Position(order, i), Position(order, j);
    if p < q {
      LaneMatesClear(turns, p, q);
    } else {
      LaneMatesClear(turns, q, p);
    }
  }

  // ---- the layout as it runs ----

  method TakeExits(m: Mapping, placer: map<string, nat>, slabs: seq<Slab>) returns (ys: map<nat, int>)
    requires m.Valid() && placer == Placers(m, |m.ir.edges|) && slabs == TriggerSlabs(m)
    ensures forall i :: 0 <= i < |m.ir.edges| ==> i in ys && ys[i] == Exit(m, i)
  {
    hide IsMapping, TriggerSlabs, Straight, Placers, Entry, NearestExit, ExitOrder, Exits, ExitAfter, Exit, Taken;
    hide SourceSlab;
    var order := ExitOrder(m);
    ExitOrderHolds(m);
    ys := map[];
    var exits: map<string, seq<int>> := map[];
    assert forall s :: Taken(exits, s) == Exits(m, order[..0], s) by { NoExits(m, exits); }
    for k := 0 to |order|
      invariant forall s :: Taken(exits, s) == Exits(m, order[..k], s)
      invariant forall j :: 0 <= j < k ==> order[j] in ys && ys[order[j]] == ExitAfter(m, order[..j], order[j])
    {
      var i := order[k];
      var from := m.ir.edges[i].from;
      var y := 0;
      StraightIfPlaced(m, placer, i);
      if m.ir.edges[i].to in placer && placer[m.ir.edges[i].to] == i {
        y := Entry(m, i);
      } else {
        SourceAt(m, i);
        y := Nearest(slabs[Position(m.Triggers(), from)], Entry(m, i), Taken(exits, from));
      }
      ExitStep(m, order[..k], i);
      assert order[..k + 1] == order[..k] + [i];
      ys := ys[i := y];
      TakenMore(exits, from, y);
      exits := exits[from := Taken(exits, from) + [y]];
      forall j | 0 <= j < k + 1 ensures order[j] in ys && ys[order[j]] == ExitAfter(m, order[..j], order[j]) {
        assert j == k || order[j] != i;
      }
    }
    forall i | 0 <= i < |m.ir.edges| ensures i in ys && ys[i] == Exit(m, i) {
      ExitAt(m, i);
      assert order[Position(order, i)] == i;
    }
  }

  lemma StraightIfPlaced(m: Mapping, placer: map<string, nat>, i: nat)
    requires m.Valid() && placer == Placers(m, |m.ir.edges|) && i < |m.ir.edges|
    ensures Straight(m, i) <==> m.ir.edges[i].to in placer && placer[m.ir.edges[i].to] == i
  {
  }

  /** exits.get(id) ?? []. */
  function Taken(exits: map<string, seq<int>>, s: string): seq<int> {
    if s in exits then exits[s] else []
  }

  lemma NoExits(m: Mapping, exits: map<string, seq<int>>)
    requires m.Valid() && exits == map[]
    ensures forall s :: Taken(exits, s) == Exits(m, [], s)
  {
  }

  lemma TakenMore(exits: map<string, seq<int>>, from: string, y: int)
    ensures forall s ::
              Taken(exits[from := Taken(exits, from) + [y]], s) == Taken(exits, s) + if from == s then [y] else []
  {
  }

  lemma SourceAt(m: Mapping, i: nat)
    requires m.Valid() && i < |m.ir.edges|
    ensures m.ir.edges[i].from in m.Triggers()
            && SourceSlab(m, i) == TriggerSlabs(m)[Position(m.Triggers(), m.ir.edges[i].from)]
  {
    EdgeEnds(m, i);
  }

  lemma ExitAt(m: Mapping, i: nat)
    requires m.Valid() && i < |m.ir.edges|
    ensures i in ExitOrder(m) && Arrows(m, ExitOrder(m))
            && Exit(m, i) == ExitAfter(m, ExitOrder(m)[..Position(ExitOrder(m), i)], i)
  {
    hide IsMapping, ExitOrder, ExitAfter;
    ExitOrderHolds(m);
  }

  lemma ExitStep(m: Mapping, taken: seq<nat>, i: nat)
    requires m.Valid() && Arrows(m, taken) && i < |m.ir.edges|
    ensures Arrows(m, taken + [i])
    ensures ExitAfter(m, taken, i) == if Straight(m, i) then Entry(m, i)
                                      else NearestExit(SourceSlab(m, i), Entry(m, i),
                                                       Exits(m, taken, m.ir.edges[i].from))
    ensures forall s :: Exits(m, taken + [i], s)
                        == Exits(m, taken, s) + if m.ir.edges[i].from == s then [ExitAfter(m, taken, i)] else []
  {
    hide IsMapping, Straight, Entry, NearestExit, SourceSlab;
    assert (taken + [i])[..|taken|] == taken;
  }

  /** Each arrow straight across, or bent in its lane. */
  method DrawRoutes(m: Mapping, ys: map<nat, int>, order: seq<nat>, laneOf: seq<nat>) returns (routes: seq<seq<Point>>)
    requires m.Valid() && (forall i :: 0 <= i < |m.ir.edges| ==> i in ys && ys[i] == Exit(m, i))
    requires |laneOf| == |order| && forall i: nat ::
               LaneIndex(m, i) == if i in order then laneOf[Position(order, i)] else 0
    ensures |routes| == |m.ir.edges| && forall i :: 0 <= i < |routes| ==> routes[i] == Route(m, i)
  {
    hide IsMapping, RowHeights, Entry, Exit, TurnOrder, Lanes, LaneIndex, FirstLane, TargetX;
    var firstLane, xs, xt := FirstLane(m), ZONE_SIDE + m.Width(), TargetX(m);
    routes := [];
    for i := 0 to |m.ir.edges|
      invariant |routes| == i && forall j :: 0 <= j < i ==> routes[j] == Route(m, j)
    {
      var y0, y1 := ys[i], Entry(m, i);
      var lx := firstLane + (if i in order then laneOf[Position(order, i)] else 0) * LANE;
      if y0 == y1 {
        routes := routes + [[At(xs, y0), At(xt, y1)]];
      } else {
        routes := routes + [[At(xs, y0), At(lx, y0), At(lx, y1), At(xt, y1)]];
      }
    }
  }

  // ---- what the drawing promises ----

  lemma {:induction false} ExitAmong(m: Mapping, n: nat, p: nat, s: string) returns (k: nat)
    requires m.Valid() && p < n <= |ExitOrder(m)| && Arrows(m, ExitOrder(m)) && m.ir.edges[ExitOrder(m)[p]].from == s
    ensures Arrows(m, ExitOrder(m)[..n])
    ensures k < |Exits(m, ExitOrder(m)[..n], s)|
            && Exits(m, ExitOrder(m)[..n], s)[k] == ExitAfter(m, ExitOrder(m)[..p], ExitOrder(m)[p])
  {
    hide IsMapping, ExitAfter, ExitOrder;
    var taken := ExitOrder(m)[..n];
    assert taken[..n - 1] == ExitOrder(m)[..n - 1];
    if p == n - 1 {
      k := |Exits(m, ExitOrder(m)[..n - 1], s)|;
    } else {
      k := ExitAmong(m, n - 1, p, s);
    }
  }

  predicate BothLeave(m: Mapping, order: seq<nat>, p: nat, q: nat, id: string)
    requires Arrows(m, order)
  {
    p < q < |order| && m.ir.edges[order[p]].from == m.ir.edges[order[q]].from == id
  }

  predicate ApartAt(m: Mapping, order: seq<nat>, p: nat, q: nat)
    requires m.Valid() && Arrows(m, order) && p < |order| && q < |order|
  {
    Away(ExitAfter(m, order[..p], order[p]), ExitAfter(m, order[..q], order[q])) >= APART
  }

  lemma LaterExitApart(m: Mapping, p: nat, q: nat, s: nat)
    requires m.Valid() && Arrows(m, ExitOrder(m)) && Roomy(m, s)
    requires BothLeave(m, ExitOrder(m), p, q, m.Triggers()[s])
    ensures ApartAt(m, ExitOrder(m), p, q)
  {
    hide Roomy, IsMapping, ExitAfter, ExitOrder, Span, Mapping.Triggers;
    RoomyIs(m, s);
    var id := m.Triggers()[s];
    RoomyExitsApart(m, q + 1, s);
    var j := ExitAmong(m, q, p, id);
    var upTo := ExitOrder(m)[..q + 1];
    assert upTo[..q] == ExitOrder(m)[..q];
    var exits := Exits(m, upTo, id);
    assert exits == Exits(m, ExitOrder(m)[..q], id) + [ExitAfter(m, ExitOrder(m)[..q], ExitOrder(m)[q])];
    assert Away(exits[j], exits[|exits| - 1]) >= APART;
  }

  /** Any two arrows out of a trigger with room leave it at least 16 apart. */
  lemma ExitsApart(m: Mapping, i: nat, j: nat, s: nat)
    requires m.Valid() && i < |m.ir.edges| && j < |m.ir.edges| && i != j && Roomy(m, s)
    requires m.ir.edges[i].from == m.ir.edges[j].from == m.Triggers()[s]
    ensures Away(Exit(m, i), Exit(m, j)) >= APART
  {
    hide Roomy, IsMapping, ExitAfter, ExitOrder, Exit, Span, Mapping.Triggers, APART;
    RoomyIs(m, s);
    ExitAt(m, i);
    ExitAt(m, j);
    var order := ExitOrder(m);
    var p, q := Position(order, i), Position(order, j);
    assert order[p] == i && order[q] == j && p != q;
    if p < q {
      LaterExitApart(m, p, q, s);
    } else {
      LaterExitApart(m, q, p, s);
    }
  }

  /** No way of sharing lanes without two arrows meeting takes fewer lanes. */
  lemma MappingNeedsLanes(m: Mapping, colour: seq<nat>, n: nat)
    requires m.Valid() && |colour| == |TurnOrder(m)| && forall k :: 0 <= k < |colour| ==> colour[k] < n
    requires forall p, q :: 0 <= p < q < |colour| && colour[p] == colour[q]
               ==> MappingLanes.Clear(TurnsOf(m, TurnOrder(m))[q], TurnsOf(m, TurnOrder(m))[p])
    ensures LaneCount(m) <= n
  {
    hide IsMapping, Exit, Entry, TurnOrder, TurnsOf, Lanes;
    TurnOrderHolds(m);
    FewestLanes(TurnsOf(m, TurnOrder(m)), colour, n);
  }
}
