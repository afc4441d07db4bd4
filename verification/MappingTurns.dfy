// Where a mapping's arrows leave and turn: each bent arrow at the free height nearest its entry,
// each turn in the first lane it may take (layoutMapping, ui/src/diagramLayout.ts).
module MappingTurns {
  import opened Counting
  import opened Sorting
  import opened Geometry
  import opened Flow
  import opened MappingColumns
  import opened MappingExits
  import opened MappingLanes
  import opened FlowMapping
  import opened MappingArrows
  import opened MappingLayout
  import opened MappingDrawing
  import opened MappingTheorem
  import opened MappingOrder

  // ---- exits ----

  /** The order exits are taken in: straight arrows as written, then the bent ones by their
      triggers' place. */
  lemma ExitsInOrder(m: Mapping, i: nat, j: nat)
    requires m.Valid() && i < |m.ir.edges| && j < |m.ir.edges| && i != j
    ensures Before(m, i, j) <==>
              if Opens(m, i) then Opens(m, j) ==> i < j else !Opens(m, j) && Earlier(m, i, j)
  {
    hide IsMapping, Straight, Opens, Earlier, SortBy, StraightOnes, BentOnes, BentBefore;
    StraightIff(m, i);
    StraightIff(m, j);
    ExitOrderHolds(m);
    OnesSplit(m);
    if Straight(m, i) && Straight(m, j) {
      StraightTaken(m, i, j);
    } else if !Straight(m, i) && !Straight(m, j) {
      BentTaken(m, i, j);
    }
  }

  lemma StraightTaken(m: Mapping, i: nat, j: nat)
    requires m.Valid() && i < |m.ir.edges| && j < |m.ir.edges| && i != j && Straight(m, i) && Straight(m, j)
    ensures Before(m, i, j) <==> i < j
  {
    hide IsMapping, Straight, SortBy, BentOnes, BentBefore;
    OnesSplit(m);
    ExitOrderHolds(m);
    var ones, order := StraightOnes(m), ExitOrder(m);
    var a, b := Position(ones, i), Position(ones, j);
    assert order[a] == i && order[b] == j;
    assert Position(order, i) == a && Position(order, j) == b;
  }

  lemma BentTaken(m: Mapping, i: nat, j: nat)
    requires m.Valid() && i < |m.ir.edges| && j < |m.ir.edges| && i != j && !Straight(m, i) && !Straight(m, j)
    ensures Before(m, i, j) <==> Earlier(m, i, j)
  {
    hide IsMapping, Straight, SortBy, StraightOnes, BentOnes, IndexOf;
    var le := (p: nat, q: nat) => BentBefore(m, p, q);
    OnesSplit(m);
    ExitOrderHolds(m);
    SortKeeps(le, BentOnes(m));
    BentOrder(m);
    SortOrders(le, BentOnes(m));
    var ones, order, sorted := StraightOnes(m), ExitOrder(m), SortBy(le, BentOnes(m));
    assert i in sorted && j in sorted;
    var a, b := Position(sorted, i), Position(sorted, j);
    assert order[|ones| + a] == i && order[|ones| + b] == j;
    assert Position(order, i) == |ones| + a && Position(order, j) == |ones| + b;
    assert a < b ==> le(sorted[a], sorted[b]);
    assert b < a ==> le(sorted[b], sorted[a]);
  }

  lemma BentOrder(m: Mapping)
    requires m.Valid()
    ensures TotalPreorder((p: nat, q: nat) => BentBefore(m, p, q))
  {
    hide IsMapping, IndexOf, Author;
  }

  /** A height a trigger's box offers, 10 within its corners, in steps of 2. */
  predicate Offered(box: Slab, y: int) {
    box.y + 10 <= y <= box.Foot() - 10 && (y - box.y) % 2 == 0
  }

  /** No exit taken from the trigger before is within 16 of the height. */
  predicate LeftFree(m: Mapping, i: nat, y: int)
    requires m.Valid() && i < |m.ir.edges|
  {
    forall j :: 0 <= j < |m.ir.edges| && j != i && m.ir.edges[j].from == m.ir.edges[i].from && Before(m, j, i) ==>
      Away(Exit(m, j), y) >= 16
  }

  /** Where a bent arrow leaves: of the heights its trigger offers that are free, the nearest to
      where it enters, the upper of two; with none free, the middle. */
  lemma BentLeavesNearest(m: Mapping, i: nat)
    requires m.Valid() && i < |m.ir.edges| && !Opens(m, i)
    ensures var box, want, y := SourceSlab(m, i), Entry(m, i), Exit(m, i);
            if exists z :: Offered(box, z) && LeftFree(m, i, z) then
              && Offered(box, y) && LeftFree(m, i, y)
              && forall z :: Offered(box, z) && LeftFree(m, i, z) ==>
                   Away(y, want) < Away(z, want) || (Away(y, want) == Away(z, want) && y <= z)
            else y == RoundHalf(2 * box.y + box.h)
  {
    hide IsMapping, Straight, Opens, Exit, Entry, SourceSlab, TakenBefore, Best, Before;
    StraightIff(m, i);
    ExitFound(m, i);
    var box, want, taken := SourceSlab(m, i), Entry(m, i), TakenBefore(m, i);
    forall z ensures LeftFree(m, i, z) <==> Free(z, taken) {
      FreeIff(m, i, z);
    }
    hide LeftFree, Free;
    OfferedTries(box);
    BestIsNearest(box, want, taken, Tries(box));
    BestIsUpper(box, want, taken, Tries(box));
    hide Tries, Offered, Try;
    if Best(box, want, taken, Tries(box)).Some? {
      var y := Best(box, want, taken, Tries(box)).value;
      assert Offered(box, y) && LeftFree(m, i, y);
    }
  }

  lemma OfferedTries(box: Slab)
    ensures forall z :: Offered(box, z) <==> exists j: nat :: j < Tries(box) && Try(box, j) == z
    ensures forall j: nat :: j < Tries(box) ==> Offered(box, Try(box, j))
  {
    forall z | Offered(box, z) ensures exists j: nat :: j < Tries(box) && Try(box, j) == z {
      assert Try(box, (z - box.y - 10) / 2) == z;
    }
  }

  lemma {:induction false} BestIsUpper(box: Slab, want: int, exits: seq<int>, n: nat)
    ensures var best := Best(box, want, exits, n);
            best.Some? ==> forall j: nat :: j < n && Free(Try(box, j), exits)
                                            && Away(Try(box, j), want) == Away(best.value, want) ==>
                                              best.value <= Try(box, j)
  {
    hide Free;
    if n > 0 {
      BestIsUpper(box, want, exits, n - 1);
      BestIsNearest(box, want, exits, n - 1);
    }
  }

  lemma FreeIff(m: Mapping, i: nat, y: int)
    requires m.Valid() && i < |m.ir.edges|
    ensures LeftFree(m, i, y) <==> Free(y, TakenBefore(m, i))
  {
    hide IsMapping, Exit, ExitOrder;
    var taken := TakenBefore(m, i);
    if Free(y, taken) {
      forall j | 0 <= j < |m.ir.edges| && j != i && m.ir.edges[j].from == m.ir.edges[i].from && Before(m, j, i)
        ensures Away(Exit(m, j), y) >= 16
      {
        TakenIs(m, j, i);
        var k :| 0 <= k < |taken| && taken[k] == Exit(m, j);
      }
    }
    if LeftFree(m, i, y) {
      forall k | 0 <= k < |taken| ensures Away(taken[k], y) >= 16 {
        var j := TakenBy(m, i, k);
      }
    }
  }

  /** Each exit taken before is some earlier arrow's. */
  lemma TakenBy(m: Mapping, i: nat, k: nat) returns (j: nat)
    requires m.Valid() && i < |m.ir.edges| && k < |TakenBefore(m, i)|
    ensures j < |m.ir.edges| && j != i && m.ir.edges[j].from == m.ir.edges[i].from && Before(m, j, i)
    ensures Exit(m, j) == TakenBefore(m, i)[k]
  {
    hide IsMapping, Exit, ExitOrder, Exits;
    ExitOrderHolds(m);
    var order := ExitOrder(m);
    var p := TakenAt(m, Position(order, i), m.ir.edges[i].from, k);
    j := order[p];
    assert Position(order, j) == p;
  }

  lemma {:induction false} TakenAt(m: Mapping, n: nat, s: string, k: nat) returns (p: nat)
    requires m.Valid() && n <= |ExitOrder(m)| && Arrows(m, ExitOrder(m)) && k < |Exits(m, ExitOrder(m)[..n], s)|
    ensures p < n && m.ir.edges[ExitOrder(m)[p]].from == s
    ensures Exit(m, ExitOrder(m)[p]) == Exits(m, ExitOrder(m)[..n], s)[k]
  {
    hide IsMapping, Exit, ExitOrder, Exits;
    assert n > 0 by { NoneTaken(m, s); }
    p := n - 1;
    TakenStep(m, p, s);
    if k < |Exits(m, ExitOrder(m)[..p], s)| {
      p := TakenAt(m, p, s, k);
    }
  }

  lemma NoneTaken(m: Mapping, s: string)
    requires m.Valid()
    ensures Exits(m, ExitOrder(m)[..0], s) == []
  {
    hide IsMapping, ExitOrder;
  }

  lemma TakenStep(m: Mapping, n: nat, s: string)
    requires m.Valid() && n < |ExitOrder(m)| && Arrows(m, ExitOrder(m))
    ensures Exits(m, ExitOrder(m)[..n + 1], s)
            == Exits(m, ExitOrder(m)[..n], s)
               + if m.ir.edges[ExitOrder(m)[n]].from == s then [Exit(m, ExitOrder(m)[n])] else []
  {
    hide IsMapping, Exit, ExitOrder, ExitAfter;
    var order := ExitOrder(m);
    ExitOrderHolds(m);
    assert order[..n + 1][..n] == order[..n];
    ExitAt(m, order[n]);
    assert Position(order, order[n]) == n;
  }

  // ---- lanes ----

  /** Higher up, or as high and written first. */
  predicate TurnsFirst(m: Mapping, i: nat, j: nat)
    requires m.Valid() && i < |m.ir.edges| && j < |m.ir.edges|
  {
    var a, b := MinI(Exit(m, i), Entry(m, i)), MinI(Exit(m, j), Entry(m, j));
    a < b || (a == b && i < j)
  }

  /** An arrow that turns takes the first lane it may: in every lane nearer the triggers some
      arrow that turns first is in its way. */
  lemma LaneIsFirst(m: Mapping, i: nat, k: nat) returns (j: nat)
    requires m.Valid() && Turns(m, i) && k < LaneIndex(m, i)
    ensures Turns(m, j) && LaneIndex(m, j) == k && TurnsFirst(m, j, i)
            && !MappingLanes.Clear(TurnOf(m, i), TurnOf(m, j))
  {
    hide IsMapping, Exit, Entry, SortBy, LaneOf;
    TurnOrderHolds(m);
    var order, le := TurnOrder(m), (p: nat, q: nat) => TurnBefore(m, p, q);
    var turns := TurnsOf(m, order);
    var p := Position(order, i);
    var q := FirstFit(turns, p, k);
    j := order[q];
    assert j in order;
    TurnsDiffer(m);
    assert Position(order, j) == q;
    TurnSorted(m, q, p);
  }

  lemma TurnSorted(m: Mapping, q: nat, p: nat)
    requires m.Valid() && q < p < |TurnOrder(m)|
    ensures TurnOrder(m)[q] in TurnOrder(m) && TurnOrder(m)[p] in TurnOrder(m)
    ensures TurnBefore(m, TurnOrder(m)[q], TurnOrder(m)[p])
  {
    hide IsMapping, Exit, Entry, SortBy;
    var le := (p: nat, q: nat) => TurnBefore(m, p, q);
    assert TotalPreorder(le);
    SortOrders(le, TurningOnes(m));
    assert le(TurnOrder(m)[q], TurnOrder(m)[p]);
  }

  lemma TurnsDiffer(m: Mapping)
    requires m.Valid()
    ensures Different(TurnOrder(m))
  {
    hide IsMapping, Exit, Entry, SortBy, Turns;
    var le := (p: nat, q: nat) => TurnBefore(m, p, q);
    SortKeeps(le, TurningOnes(m));
    SameMultisetDifferent(TurningOnes(m), TurnOrder(m));
  }

  lemma FirstFit(turns: seq<Turn>, i: nat, k: nat) returns (j: nat)
    requires i < |turns| && k < LaneOf(turns, i)
    ensures j < i && LaneOf(turns, j) == k && !MappingLanes.Clear(turns[i], turns[j])
  {
    var lanes := Lanes(turns[..i]);
    var p :| 0 <= p < |lanes[k]| && !MappingLanes.Clear(turns[i], lanes[k][p]);
    j := HeldIsTurn(turns[..i], k, p);
    assert turns[..i][..j] == turns[..j];
  }

  /** Two arrows that turn in one lane are 12 apart along it. */
  lemma LaneMatesApart(m: Mapping, i: nat, j: nat)
    requires m.Valid() && Turns(m, i) && Turns(m, j) && i != j && LaneIndex(m, i) == LaneIndex(m, j)
    ensures || MaxI(Exit(m, i), Entry(m, i)) + 12 <= MinI(Exit(m, j), Entry(m, j))
            || MaxI(Exit(m, j), Entry(m, j)) + 12 <= MinI(Exit(m, i), Entry(m, i))
  {
    hide IsMapping, Exit, Entry, LaneIndex;
    LanesShared(m, i, j);
  }

  /** An arrow that turns does so in its lane, the first 24 past the triggers' frame and each next
      12 on. */
  lemma TurnStands(m: Mapping, i: nat)
    requires m.Valid() && Turns(m, i)
    ensures |Route(m, i)| == 4
    ensures Route(m, i)[1].x == Frame(m, false).w + 24.0 + (12 * LaneIndex(m, i)) as real == Route(m, i)[2].x
  {
    hide IsMapping, Exit, Entry, LaneIndex, FrameWidth, FrameHeight;
  }
}
