// Heights in a mapping: the rows, the targets' slots, and the triggers stacked
// down the left under a running floor (layoutMapping in ui/src/diagramLayout.ts).
module MappingColumns {
  import opened Geometry
  import opened Flow

  /** A box's top and height. */
  datatype Slab = Slab(y: int, h: int) {
    function Foot(): int {
      y + h
    }
  }

  const ROW_GAP := 20
  const ZONE_TOP := 44
  /** Half the least distance between two attach points. */
  const HALF := 8

  /** Math.round(n / 2). */
  function RoundHalf(n: int): (r: int)
    ensures n <= 2 * r <= n + 1
  {
    (n + 1) / 2
  }

  // ---- rows ----

  predicate Heights(hs: seq<int>) {
    forall k :: 0 <= k < |hs| ==> hs[k] >= 0 && hs[k] % 4 == 0
  }

  /** Row k's top: the rows above it and the gaps between. */
  function RowTop(hs: seq<int>, gap: int, k: nat): int
    requires k <= |hs|
  {
    if k == 0 then ZONE_TOP else RowTop(hs, gap, k - 1) + hs[k - 1] + gap
  }

  lemma {:induction false} RowsDescend(hs: seq<int>, gap: int, j: nat, k: nat)
    requires Heights(hs) && gap >= 0 && j <= k <= |hs|
    ensures RowTop(hs, gap, j) <= RowTop(hs, gap, k)
    ensures j < k ==> RowTop(hs, gap, j) + hs[j] + gap <= RowTop(hs, gap, k)
  {
    if j < k {
      RowsDescend(hs, gap, j, k - 1);
    }
  }

  predicate SpansOk(spans: seq<(nat, nat)>, rows: nat) {
    && (forall i :: 0 <= i < |spans| ==> spans[i].0 <= spans[i].1 < rows)
    && (forall i, j :: 0 <= i < j < |spans| ==> spans[i].1 < spans[j].0)
  }

  /** Rows under one trigger each, raised to that trigger's height where it is the greater. */
  function Raised(hs: seq<int>, spans: seq<(nat, nat)>, ths: seq<int>, n: nat): (r: seq<int>)
    requires n <= |spans| == |ths| && forall i :: 0 <= i < |spans| ==> spans[i].0 < |hs|
    ensures |r| == |hs|
  {
    if n == 0 then hs
    else
      var before := Raised(hs, spans, ths, n - 1);
      var (a, b) := spans[n - 1];
      if a == b then before[a := MaxI(before[a], ths[n - 1])] else before
  }

  lemma {:induction false} RaisedRoom(hs: seq<int>, spans: seq<(nat, nat)>, ths: seq<int>, n: nat)
    requires n <= |spans| == |ths| && forall i :: 0 <= i < |spans| ==> spans[i].0 < |hs|
    requires Heights(hs) && forall i :: 0 <= i < |ths| ==> ths[i] >= 0 && ths[i] % 4 == 0
    ensures Heights(Raised(hs, spans, ths, n))
    ensures forall k :: 0 <= k < |hs| ==> Raised(hs, spans, ths, n)[k] >= hs[k]
    ensures forall i :: 0 <= i < n && spans[i].0 == spans[i].1 ==> Raised(hs, spans, ths, n)[spans[i].0] >= ths[i]
  {
    if n > 0 {
      RaisedRoom(hs, spans, ths, n - 1);
    }
  }

  predicate Alone(spans: seq<(nat, nat)>, i: nat, k: nat) {
    i < |spans| && spans[i] == (k, k)
  }

  /** A row under one trigger alone is as high as the higher of the two, and no other
      row changes. */
  lemma {:induction false} RaisedExactly(hs: seq<int>, spans: seq<(nat, nat)>, ths: seq<int>, n: nat, k: nat)
    requires n <= |spans| == |ths| && SpansOk(spans, |hs|) && k < |hs|
    ensures forall i: nat :: i < n && Alone(spans, i, k) ==> Raised(hs, spans, ths, n)[k] == MaxI(hs[k], ths[i])
    ensures (forall i: nat :: i < n ==> !Alone(spans, i, k)) ==> Raised(hs, spans, ths, n)[k] == hs[k]
  {
    if n > 0 {
      var m := n - 1;
      RaisedExactly(hs, spans, ths, m, k);
      if Alone(spans, m, k) {
        assert forall i: nat :: i < m ==> !Alone(spans, i, k);
      } else {
        assert spans[m].0 != spans[m].1 || spans[m].0 != k;
      }
    }
  }

  method RaiseRows(base: seq<int>, spans: seq<(nat, nat)>, ths: seq<int>) returns (hs: seq<int>)
    requires |spans| == |ths| && forall i :: 0 <= i < |spans| ==> spans[i].0 < |base|
    ensures hs == Raised(base, spans, ths, |spans|)
  {
    hs := base;
    for i := 0 to |spans|
      invariant hs == Raised(base, spans, ths, i)
    {
      var (a, b) := spans[i];
      if a == b {
        hs := hs[a := MaxI(hs[a], ths[i])];
      }
    }
  }

  method StackRows(hs: seq<int>, gap: int) returns (tops: seq<int>)
    ensures |tops| == |hs| && forall k :: 0 <= k < |hs| ==> tops[k] == RowTop(hs, gap, k)
  {
    tops := [];
    var y := ZONE_TOP;
    for k := 0 to |hs|
      invariant y == RowTop(hs, gap, k)
      invariant |tops| == k && forall j :: 0 <= j < k ==> tops[j] == RowTop(hs, gap, j)
    {
      tops := tops + [y];
      y := y + hs[k] + gap;
    }
  }

  // ---- a target's slots ----

  /** The height k arrows in slots a spacing apart need. */
  function Slotted(k: nat, g: int): (h: int)
    ensures h % 4 == 0
  {
    if k < 2 then 0
    else
      var h := Up8(k * g + 16);
      assert h % 4 == 0 by {
        assert h % 8 == 0;
      }
      h
  }

  /** The height an arrow enters a target at: its middle when alone, else slot j
      of k even slots. */
  function SlotHeight(t: Slab, k: nat, g: int, j: nat): int {
    if k < 2 then RoundHalf(2 * t.y + t.h) else RoundHalf(2 * t.y + (t.h - k * g) + g * (2 * j + 1))
  }

  lemma MulMonotone(a: nat, b: nat, g: int)
    requires a <= b && g >= 0
    ensures a * g <= b * g
  {
  }

  /** An entry lies within its target, half a spacing from its corners, the first slot no
      lower than its middle. */
  lemma SlotWithin(t: Slab, k: nat, g: int, j: nat)
    requires g >= 2 * HALF && t.h >= 2 * HALF && t.h % 4 == 0 && (k >= 2 ==> j < k && t.h >= k * g)
    ensures t.y + HALF <= SlotHeight(t, k, g, j) <= t.Foot() - HALF
    ensures k < 2 || j == 0 ==> 2 * SlotHeight(t, k, g, j) <= 2 * t.y + t.h
  {
    if k >= 2 {
      MulMonotone(j + 1, k, g);
      MulMonotone(1, k, g);
      assert g * (2 * j + 1) == 2 * ((j + 1) * g) - g;
    }
  }

  /** Entries in different slots of one target are their slots' spacing apart. */
  lemma SlotsApart(t: Slab, k: nat, g: int, i: nat, j: nat)
    requires k >= 2 && g >= 0 && i < j
    ensures SlotHeight(t, k, g, j) == SlotHeight(t, k, g, i) + (j - i) * g
    ensures SlotHeight(t, k, g, j) >= SlotHeight(t, k, g, i) + g
  {
    MulMonotone(1, j - i, g);
    assert g * (2 * j + 1) == g * (2 * i + 1) + 2 * ((j - i) * g);
  }

  // ---- the triggers down the left ----

  /** Where a trigger stands: over all its rows if several; else no taller than it need be,
      with its straight arrow in its middle where the floor allows. */
  function TriggerSlab(span: (nat, nat), th: int, level: Option<int>, floor: int, hs: seq<int>, gap: int): Slab
    requires span.0 <= span.1 < |hs|
  {
    var (a, b) := span;
    if a != b then Slab(RowTop(hs, gap, a), RowTop(hs, gap, b) + hs[b] - RowTop(hs, gap, a))
    else if level.None? then Slab(floor, th)
    else Slab(MaxI(floor, RoundHalf(2 * level.value - th)), th)
  }

  function FloorUnder(slabs: seq<Slab>): int {
    if slabs == [] then ZONE_TOP else slabs[|slabs| - 1].Foot() + ROW_GAP
  }

  function Slabs(spans: seq<(nat, nat)>, ths: seq<int>, levels: seq<Option<int>>, hs: seq<int>, gap: int,
                 n: nat): (slabs: seq<Slab>)
    requires SpansOk(spans, |hs|) && n <= |spans| == |ths| == |levels|
    ensures |slabs| == n
  {
    if n == 0 then []
    else
      var before := Slabs(spans, ths, levels, hs, gap, n - 1);
      before + [TriggerSlab(spans[n - 1], ths[n - 1], levels[n - 1], FloorUnder(before), hs, gap)]
  }

  method StackTriggers(spans: seq<(nat, nat)>, ths: seq<int>, levels: seq<Option<int>>, hs: seq<int>, gap: int)
    returns (slabs: seq<Slab>)
    requires SpansOk(spans, |hs|) && |spans| == |ths| == |levels|
    ensures slabs == Slabs(spans, ths, levels, hs, gap, |spans|)
  {
    slabs := [];
    var floor := ZONE_TOP;
    for i := 0 to |spans|
      invariant slabs == Slabs(spans, ths, levels, hs, gap, i) && floor == FloorUnder(slabs)
    {
      var box := TriggerSlab(spans[i], ths[i], levels[i], floor, hs, gap);
      slabs := slabs + [box];
      floor := box.Foot() + ROW_GAP;
    }
  }

  /** What the triggers' rows and levels promise. */
  predicate TriggersOk(spans: seq<(nat, nat)>, ths: seq<int>, levels: seq<Option<int>>, hs: seq<int>, gap: int) {
    && SpansOk(spans, |hs|) && |spans| == |ths| == |levels| && Heights(hs) && gap >= ROW_GAP
    && (forall i :: 0 <= i < |ths| ==> ths[i] >= 2 * HALF && ths[i] % 4 == 0)
    && (forall i :: 0 <= i < |spans| && spans[i].0 == spans[i].1 ==> hs[spans[i].0] >= ths[i])
    && (forall i :: 0 <= i < |spans| && spans[i].0 == spans[i].1 && levels[i].Some? ==>
          var top := RowTop(hs, gap, spans[i].0);
          top + HALF <= levels[i].value && 2 * levels[i].value <= 2 * top + hs[spans[i].0])
  }

  /** One trigger's box: no lower than its rows, over them when it spans several,
      else at its own height across the level of its arrow. */
  predicate SlabOk(box: Slab, span: (nat, nat), th: int, level: Option<int>, hs: seq<int>, gap: int)
    requires span.0 <= span.1 < |hs|
  {
    var top, foot := RowTop(hs, gap, span.0), RowTop(hs, gap, span.1) + hs[span.1];
    && box.h >= 0 && box.Foot() <= foot
    && (if span.0 != span.1 then box.y == top && box.Foot() == foot
        else box.h == th && (level.Some? ==> box.y + HALF <= level.value <= box.Foot() - HALF))
  }

  lemma SlabFits(span: (nat, nat), th: int, level: Option<int>, floor: int, hs: seq<int>, gap: int)
    requires span.0 <= span.1 < |hs| && Heights(hs) && gap >= ROW_GAP && th >= 2 * HALF && th % 4 == 0
    requires span.0 == span.1 ==> hs[span.0] >= th
    requires span.0 == span.1 && level.Some? ==>
               var top := RowTop(hs, gap, span.0); top + HALF <= level.value && 2 * level.value <= 2 * top + hs[span.0]
    requires floor <= RowTop(hs, gap, span.0)
    ensures SlabOk(TriggerSlab(span, th, level, floor, hs, gap), span, th, level, hs, gap)
    ensures floor <= TriggerSlab(span, th, level, floor, hs, gap).y
  {
    RowsDescend(hs, gap, span.0, span.1);
  }

  /** The running floor: every trigger's box is well placed, and starts no higher
      than the foot of the one above and a gap. */
  lemma {:induction false} SlabsFollow(spans: seq<(nat, nat)>, ths: seq<int>, levels: seq<Option<int>>, hs: seq<int>,
                                       gap: int, n: nat)
    requires TriggersOk(spans, ths, levels, hs, gap) && n <= |spans|
    ensures var slabs := Slabs(spans, ths, levels, hs, gap, n);
            && (forall i :: 0 <= i < n ==> SlabOk(slabs[i], spans[i], ths[i], levels[i], hs, gap))
            && (forall i, j :: 0 <= i < j < n ==> slabs[i].Foot() + ROW_GAP <= slabs[j].y)
  {
    hide SlabOk, TriggerSlab;
    if n > 0 {
      SlabsFollow(spans, ths, levels, hs, gap, n - 1);
      var before := Slabs(spans, ths, levels, hs, gap, n - 1);
      var (a, b) := spans[n - 1];
      FloorAboveRow(spans, ths, levels, hs, gap, n - 1);
      SlabFits(spans[n - 1], ths[n - 1], levels[n - 1], FloorUnder(before), hs, gap);
      forall i | 0 <= i < n - 1 ensures before[i].Foot() + ROW_GAP <= FloorUnder(before) {
        if i < n - 2 {
          assert before[i].Foot() + ROW_GAP <= before[n - 2].y;
          SlabTall(before[n - 2], spans[n - 2], ths[n - 2], levels[n - 2], hs, gap);
        }
      }
    }
  }

  lemma SlabTall(box: Slab, span: (nat, nat), th: int, level: Option<int>, hs: seq<int>, gap: int)
    requires span.0 <= span.1 < |hs| && SlabOk(box, span, th, level, hs, gap)
    ensures box.y <= box.Foot() <= RowTop(hs, gap, span.1) + hs[span.1]
  {
  }

  lemma FloorAboveRow(spans: seq<(nat, nat)>, ths: seq<int>, levels: seq<Option<int>>, hs: seq<int>, gap: int, n: nat)
    requires TriggersOk(spans, ths, levels, hs, gap) && n < |spans|
    requires var slabs := Slabs(spans, ths, levels, hs, gap, n);
             forall i :: 0 <= i < n ==> SlabOk(slabs[i], spans[i], ths[i], levels[i], hs, gap)
    ensures FloorUnder(Slabs(spans, ths, levels, hs, gap, n)) <= RowTop(hs, gap, spans[n].0)
  {
    RowsDescend(hs, gap, 0, spans[n].0);
    if n > 0 {
      SlabTall(Slabs(spans, ths, levels, hs, gap, n)[n - 1], spans[n - 1], ths[n - 1], levels[n - 1], hs, gap);
      RowsDescend(hs, gap, spans[n - 1].1, spans[n].0);
    }
  }
}
