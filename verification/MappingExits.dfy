// Where arrows leave their triggers in a mapping: straight ones level with their
// slots, bent ones at the nearest free height (layoutMapping in
// ui/src/diagramLayout.ts).
module MappingExits {
  import opened Geometry
  import opened Flow
  import opened MappingColumns

  /** Exits stand at least this far apart, and this far from a box's corners. */
  const APART := 16
  const CORNER := 10

  /** The height k arrows out of a trigger need. */
  function ExitRoom(k: nat): (h: int)
    ensures h % 4 == 0
    ensures k >= 2 ==> h >= 2 * (CORNER + APART * (k - 1))
  {
    if k < 2 then 0
    else
      var h := Up8(2 * (CORNER + APART * (k - 1)));
      assert h % 4 == 0 by {
        assert h % 8 == 0;
      }
      h
  }

  function Away(a: int, b: int): (d: int)
    ensures d >= 0
  {
    if a >= b then a - b else b - a
  }

  /** No exit taken is too near y. */
  predicate Free(y: int, exits: seq<int>) {
    forall k :: 0 <= k < |exits| ==> Away(exits[k], y) >= APART
  }

  /** The heights tried on a box: every second pixel between its corners. */
  function Tries(box: Slab): nat {
    if box.h < 2 * CORNER then 0 else (box.h - 2 * CORNER) / 2 + 1
  }

  function Try(box: Slab, j: nat): int {
    box.y + CORNER + 2 * j
  }

  /** The best of the first n heights tried. */
  function Best(box: Slab, want: int, exits: seq<int>, n: nat): Option<int> {
    if n == 0 then None
    else
      var before := Best(box, want, exits, n - 1);
      var y := Try(box, n - 1);
      if Free(y, exits) && (before.None? || Away(y, want) < Away(before.value, want)) then Some(y) else before
  }

  /** nearest(): of the heights tried the free one least far from want; the middle if all are taken. */
  function NearestExit(box: Slab, want: int, exits: seq<int>): int {
    var best := Best(box, want, exits, Tries(box));
    if best.Some? then best.value else RoundHalf(2 * box.y + box.h)
  }

  method Nearest(box: Slab, want: int, exits: seq<int>) returns (y: int)
    ensures y == NearestExit(box, want, exits)
  {
    var best: Option<int> := None;
    var t := box.y + CORNER;
    ghost var j := 0;
    while t <= box.y + box.h - CORNER
      invariant t == Try(box, j) && j <= Tries(box) && best == Best(box, want, exits, j)
      decreases box.y + box.h - t
    {
      if Free(t, exits) && (best.None? || Away(t, want) < Away(best.value, want)) {
        best := Some(t);
      }
      t := t + 2;
      j := j + 1;
    }
    if best.Some? {
      return best.value;
    }
    return RoundHalf(2 * box.y + box.h);
  }

  /** The best of the heights tried is free, and no free one is nearer. */
  lemma {:induction false} BestIsNearest(box: Slab, want: int, exits: seq<int>, n: nat)
    ensures var best := Best(box, want, exits, n);
            && (best.None? <==> forall j :: 0 <= j < n ==> !Free(Try(box, j), exits))
            && (best.Some? ==> && Free(best.value, exits)
                               && (exists j :: 0 <= j < n && best.value == Try(box, j))
                               && forall j :: 0 <= j < n && Free(Try(box, j), exits) ==>
                                    Away(best.value, want) <= Away(Try(box, j), want))
  {
    hide Free;
    if n > 0 {
      BestIsNearest(box, want, exits, n - 1);
      var best := Best(box, want, exits, n);
      if best.Some? && best == Best(box, want, exits, n - 1) {
        var j :| 0 <= j < n - 1 && best.value == Try(box, j);
        assert j < n;
      }
    }
  }

  // ---- the pigeonhole ----

  /** How many of the first n heights are too near u. */
  function NearCount(box: Slab, u: int, n: nat): nat {
    if n == 0 then 0 else NearCount(box, u, n - 1) + if Away(u, Try(box, n - 1)) < APART then 1 else 0
  }

  function FreeCount(box: Slab, exits: seq<int>, n: nat): nat {
    if n == 0 then 0 else FreeCount(box, exits, n - 1) + if Free(Try(box, n - 1), exits) then 1 else 0
  }

  /** One exit blocks at most 16 heights two pixels apart. */
  lemma {:induction false} BlocksSixteen(box: Slab, u: int, n: nat)
    ensures var d := u - box.y - CORNER;
            var lo, hi := (d - APART) / 2 + 1, (d + APART - 1) / 2;
            NearCount(box, u, n) <= MaxI(0, MinI(n, hi + 1) - lo)
    ensures NearCount(box, u, n) <= APART
  {
    if n > 0 {
      BlocksSixteen(box, u, n - 1);
    }
  }

  lemma {:induction false} OneMoreExit(box: Slab, exits: seq<int>, u: int, n: nat)
    ensures FreeCount(box, exits + [u], n) + NearCount(box, u, n) >= FreeCount(box, exits, n)
  {
    if n > 0 {
      OneMoreExit(box, exits, u, n - 1);
      var y := Try(box, n - 1);
      assert Free(y, exits) && Away(u, y) >= APART ==> Free(y, exits + [u]);
    }
  }

  lemma {:induction false} FreeEnough(box: Slab, exits: seq<int>, n: nat)
    ensures FreeCount(box, exits, n) + APART * |exits| >= n
  {
    if exits == [] {
      AllFree(box, n);
    } else {
      var init, last := exits[..|exits| - 1], exits[|exits| - 1];
      FreeEnough(box, init, n);
      OneMoreExit(box, init, last, n);
      BlocksSixteen(box, last, n);
      assert init + [last] == exits;
    }
  }

  lemma {:induction false} AllFree(box: Slab, n: nat)
    ensures FreeCount(box, [], n) == n
  {
    if n > 0 {
      AllFree(box, n - 1);
    }
  }

  lemma {:induction false} SomeFree(box: Slab, exits: seq<int>, n: nat) returns (j: nat)
    requires FreeCount(box, exits, n) > 0
    ensures j < n && Free(Try(box, j), exits)
  {
    if Free(Try(box, n - 1), exits) {
      j := n - 1;
    } else {
      j := SomeFree(box, exits, n - 1);
    }
  }

  /** A box with room for k exits always has a free height while fewer than k are
      taken: the search never falls back on the middle. */
  lemma RoomLeavesOneFree(box: Slab, want: int, exits: seq<int>, k: nat)
    requires |exits| < k && box.h >= ExitRoom(k) && box.h >= 2 * CORNER
    ensures var y := NearestExit(box, want, exits);
            && Free(y, exits) && box.y + CORNER <= y <= box.Foot() - CORNER
            && forall j :: 0 <= j < Tries(box) && Free(Try(box, j), exits) ==> Away(y, want) <= Away(Try(box, j), want)
  {
    var n := Tries(box);
    FreeEnough(box, exits, n);
    assert n > APART * |exits| by {
      if k >= 2 {
        assert APART * |exits| <= APART * (k - 1);
      }
    }
    var j := SomeFree(box, exits, n);
    BestIsNearest(box, want, exits, n);
    assert Best(box, want, exits, n).Some?;
  }

  /** Without that room it does: on a box over two plain rows, straight arrows at their
      middles, the second and third arrow to targets above leave at one height. */
  lemma CrowdedExit(y: int, w0: int, w1: int, w2: int)
    requires w0 <= y && w1 <= y && w2 <= y
    ensures var box, straight := Slab(y, 103), [y + 20, y + 83];
            && ExitRoom(5) > box.h
            && NearestExit(box, w0, straight) == y + 36
            && NearestExit(box, w1, straight + [y + 36]) == y + 52
            && NearestExit(box, w2, straight + [y + 36] + [y + 52]) == y + 52
  {
    var box := Slab(y, 103);
    var none := [y + 20, y + 83];
    var one := none + [y + 36];
    var two := one + [y + 52];
    forall j: nat | j < Tries(box) ensures Free(Try(box, j), none) <==> 13 <= j <= 28 {
      FreeTwo(Try(box, j), y + 20, y + 83);
    }
    NearestIs(box, w0, none, 13);
    forall j: nat | j < Tries(box) ensures Free(Try(box, j), one) <==> 21 <= j <= 28 {
      FreeMore(Try(box, j), none, y + 36);
    }
    NearestIs(box, w1, one, 21);
    forall j: nat | j < Tries(box) ensures !Free(Try(box, j), two) {
      FreeMore(Try(box, j), one, y + 52);
    }
    BestIsNearest(box, w2, two, Tries(box));
  }

  lemma FreeTwo(y: int, a: int, b: int)
    ensures Free(y, [a, b]) <==> Away(a, y) >= APART && Away(b, y) >= APART
  {
    var exits := [a, b];
    assert exits[0] == a && exits[1] == b;
  }

  lemma FreeMore(y: int, exits: seq<int>, u: int)
    ensures Free(y, exits + [u]) <==> Free(y, exits) && Away(u, y) >= APART
  {
    var more := exits + [u];
    assert more[|exits|] == u && forall k :: 0 <= k < |exits| ==> more[k] == exits[k];
  }

  /** Wanted above the box, the first free height is the nearest. */
  lemma NearestIs(box: Slab, want: int, exits: seq<int>, first: nat)
    requires want <= box.y && first < Tries(box) && Free(Try(box, first), exits)
    requires forall j: nat :: j < first ==> !Free(Try(box, j), exits)
    ensures NearestExit(box, want, exits) == Try(box, first)
  {
    hide Free;
    BestIsNearest(box, want, exits, Tries(box));
    var best := Best(box, want, exits, Tries(box)).value;
    var j :| 0 <= j < Tries(box) && best == Try(box, j);
    assert j >= first;
  }
}
