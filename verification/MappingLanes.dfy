// Lanes between a mapping's two frames, shared first-fit by the arrows that turn
// (layoutMapping in ui/src/diagramLayout.ts).
module MappingLanes {
  import opened Counting
  import opened Flow

  /** The heights an arrow turns between. */
  datatype Turn = Turn(lo: int, hi: int)

  predicate Clear(v: Turn, s: Turn) {
    v.hi + LANE <= s.lo || v.lo >= s.hi + LANE
  }

  predicate Fits(held: seq<Turn>, v: Turn) {
    forall k :: 0 <= k < |held| ==> Clear(v, held[k])
  }

  /** The first lane with room, or the next new one. */
  function LaneFor(lanes: seq<seq<Turn>>, v: Turn): (k: nat)
    ensures k <= |lanes|
    ensures k < |lanes| ==> Fits(lanes[k], v)
    ensures forall j :: 0 <= j < k ==> !Fits(lanes[j], v)
  {
    if lanes == [] then 0 else if Fits(lanes[0], v) then 0 else 1 + LaneFor(lanes[1..], v)
  }

  function Put(lanes: seq<seq<Turn>>, k: nat, v: Turn): seq<seq<Turn>>
    requires k <= |lanes|
  {
    if k == |lanes| then lanes + [[v]] else lanes[k := lanes[k] + [v]]
  }

  function Lanes(turns: seq<Turn>): seq<seq<Turn>> {
    if turns == [] then []
    else
      var before := Lanes(turns[..|turns| - 1]);
      var v := turns[|turns| - 1];
      Put(before, LaneFor(before, v), v)
  }

  function LaneOf(turns: seq<Turn>, i: nat): nat
    requires i < |turns|
  {
    LaneFor(Lanes(turns[..i]), turns[i])
  }

  method AssignLanes(turns: seq<Turn>) returns (lanes: seq<seq<Turn>>, laneOf: seq<nat>)
    ensures lanes == Lanes(turns)
    ensures |laneOf| == |turns| && forall i :: 0 <= i < |turns| ==> laneOf[i] == LaneOf(turns, i)
  {
    lanes, laneOf := [], [];
    for i := 0 to |turns|
      invariant lanes == Lanes(turns[..i])
      invariant |laneOf| == i && forall j :: 0 <= j < i ==> laneOf[j] == LaneOf(turns, j)
    {
      assert turns[..i + 1][..i] == turns[..i];
      var v := turns[i];
      var k := 0;
      while k < |lanes| && !Fits(lanes[k], v)
        invariant k <= |lanes| && forall j :: 0 <= j < k ==> !Fits(lanes[j], v)
      {
        k := k + 1;
      }
      if k == |lanes| {
        lanes := lanes + [[v]];
      } else {
        lanes := lanes[k := lanes[k] + [v]];
      }
      laneOf := laneOf + [k];
    }
    assert turns[..|turns|] == turns;
  }

  /** A turn is among those its lane holds. */
  lemma {:induction false} LaneHolds(turns: seq<Turn>, i: nat)
    requires i < |turns|
    ensures LaneOf(turns, i) < |Lanes(turns)| && turns[i] in Lanes(turns)[LaneOf(turns, i)]
  {
    var init := turns[..|turns| - 1];
    if i < |init| {
      LaneHolds(init, i);
      assert init[..i] == turns[..i];
    }
  }

  /** Two arrows in one lane never meet. */
  lemma {:induction false} LaneMatesClear(turns: seq<Turn>, i: nat, j: nat)
    requires i < j < |turns| && LaneOf(turns, i) == LaneOf(turns, j)
    ensures Clear(turns[j], turns[i])
  {
    var k := LaneOf(turns, j);
    LaneHolds(turns[..j], i);
    assert turns[..j][..i] == turns[..i];
    var held := Lanes(turns[..j])[k];
    var p :| 0 <= p < |held| && held[p] == turns[i];
    assert Fits(held, turns[j]);
  }

  // ---- no assignment needs fewer lanes ----

  predicate ByTop(turns: seq<Turn>) {
    forall i, j :: 0 <= i < j < |turns| ==> turns[i].lo <= turns[j].lo
  }

  predicate Spans(turns: seq<Turn>) {
    forall i :: 0 <= i < |turns| ==> turns[i].lo <= turns[i].hi
  }

  lemma {:induction false} HeldIsTurn(turns: seq<Turn>, k: nat, p: nat) returns (i: nat)
    requires k < |Lanes(turns)| && p < |Lanes(turns)[k]|
    ensures i < |turns| && turns[i] == Lanes(turns)[k][p] && LaneOf(turns, i) == k
  {
    var init := turns[..|turns| - 1];
    if k < |Lanes(init)| && p < |Lanes(init)[k]| {
      i := HeldIsTurn(init, k, p);
      assert init[..i] == turns[..i];
    } else {
      i := |turns| - 1;
    }
  }

  /** Arrows, one in each lane, that all pass one height. */
  predicate Stack(turns: seq<Turn>, picks: seq<nat>, y: int) {
    && (forall k :: 0 <= k < |picks| ==> picks[k] < |turns| && turns[picks[k]].lo <= y < turns[picks[k]].hi + LANE)
    && (forall j, k :: 0 <= j < k < |picks| ==> picks[j] != picks[k])
  }

  /** A turn that fits none of the lanes meets one arrow in each at its own top. */
  lemma {:induction false} MeetsEach(turns: seq<Turn>, v: Turn, n: nat) returns (picks: seq<nat>)
    requires n <= |Lanes(turns)| && (forall k :: 0 <= k < n ==> !Fits(Lanes(turns)[k], v))
    requires v.lo <= v.hi && forall i :: 0 <= i < |turns| ==> turns[i].lo <= v.lo
    ensures |picks| == n && Stack(turns, picks, v.lo)
    ensures forall k :: 0 <= k < n ==> picks[k] < |turns| && LaneOf(turns, picks[k]) == k
  {
    if n == 0 {
      picks := [];
    } else {
      picks := MeetsEach(turns, v, n - 1);
      var held := Lanes(turns)[n - 1];
      var p :| 0 <= p < |held| && !Clear(v, held[p]);
      var i := HeldIsTurn(turns, n - 1, p);
      picks := picks + [i];
    }
  }

  /** The turn that starts there itself stacks on the others. */
  lemma StackMore(turns: seq<Turn>, picks: seq<nat>)
    requires turns != [] && turns[|turns| - 1].lo <= turns[|turns| - 1].hi
    requires Stack(turns[..|turns| - 1], picks, turns[|turns| - 1].lo)
    ensures Stack(turns, picks + [|turns| - 1], turns[|turns| - 1].lo)
  {
  }

  lemma StackStays(turns: seq<Turn>, picks: seq<nat>, y: int)
    requires turns != [] && Stack(turns[..|turns| - 1], picks, y)
    ensures Stack(turns, picks, y)
  {
  }

  lemma NoStack()
    ensures Stack([], [], 0)
  {
  }

  lemma LanesGrow(turns: seq<Turn>)
    ensures turns == [] ==> Lanes(turns) == []
    ensures turns != [] ==> var before := Lanes(turns[..|turns| - 1]);
                            |Lanes(turns)|
                            == |before| + if LaneFor(before, turns[|turns| - 1]) == |before| then 1 else 0
  {
  }

  lemma InitByTop(turns: seq<Turn>)
    requires turns != [] && ByTop(turns) && Spans(turns)
    ensures ByTop(turns[..|turns| - 1]) && Spans(turns[..|turns| - 1])
    ensures turns[|turns| - 1].lo <= turns[|turns| - 1].hi
    ensures forall i :: 0 <= i < |turns| - 1 ==> turns[i].lo <= turns[|turns| - 1].lo
  {
  }

  /** As many arrows as there are lanes pass one height. */
  lemma {:induction false} LanesAreStacked(turns: seq<Turn>) returns (picks: seq<nat>, y: int)
    requires ByTop(turns) && Spans(turns)
    ensures |picks| == |Lanes(turns)| && Stack(turns, picks, y)
  {
    hide Lanes, Stack, Fits, ByTop;
    LanesGrow(turns);
    if turns == [] {
      picks, y := [], 0;
      assert Stack([], [], 0) by { NoStack(); }
    } else {
      var init, v := turns[..|turns| - 1], turns[|turns| - 1];
      var before := Lanes(init);
      InitByTop(turns);
      if LaneFor(before, v) < |before| {
        picks, y := LanesAreStacked(init);
        StackStays(turns, picks, y);
      } else {
        picks := MeetsEach(init, v, |before|);
        y := v.lo;
        StackMore(turns, picks);
        picks := picks + [|turns| - 1];
      }
    }
  }

  /** No way of putting the arrows in lanes without two meeting takes fewer. */
  lemma FewestLanes(turns: seq<Turn>, colour: seq<nat>, n: nat)
    requires ByTop(turns) && Spans(turns) && |colour| == |turns|
    requires forall i :: 0 <= i < |turns| ==> colour[i] < n
    requires forall i, j :: 0 <= i < j < |turns| && colour[i] == colour[j] ==> Clear(turns[j], turns[i])
    ensures |Lanes(turns)| <= n
  {
    var picks, y := LanesAreStacked(turns);
    var colours := seq(|picks|, k requires 0 <= k < |picks| => colour[picks[k]]);
    forall j, k | 0 <= j < k < |picks| ensures colours[j] != colours[k] {
      if picks[j] < picks[k] {
        assert !Clear(turns[picks[k]], turns[picks[j]]);
      } else {
        assert !Clear(turns[picks[j]], turns[picks[k]]);
      }
    }
    DifferentBelow(colours, n);
  }
}
