// The arrows of a mapping: which one places each target and runs straight, where
// each enters its target and where it leaves its trigger.
module MappingArrows {
  import opened Counting
  import opened Sorting
  import opened Flow
  import opened MappingRows
  import opened MappingColumns
  import opened MappingExits
  import opened FlowMapping

  // ---- which arrow placed each target ----

  /** The arrow reaches a row of its own trigger's span. */
  predicate InOwnSpan(m: Mapping, i: nat)
    requires m.Valid() && i < |m.ir.edges|
  {
    EdgeEnds(m, i);
    RowsHoldTargets(m);
    var span := m.SpanOf(Position(m.Triggers(), m.ir.edges[i].from));
    span.0 <= m.RowsLaid().rowOf[m.ir.edges[i].to] <= span.1
  }

  /** The first n arrows seen: the first to reach each target from its own span. */
  function Placers(m: Mapping, n: nat): (placer: map<string, nat>)
    requires m.Valid() && n <= |m.ir.edges|
  {
    if n == 0 then map[]
    else
      var before := Placers(m, n - 1);
      var t := m.ir.edges[n - 1].to;
      if InOwnSpan(m, n - 1) && t !in before then before[t := n - 1] else before
  }

  method FindPlacers(m: Mapping) returns (placer: map<string, nat>)
    requires m.Valid()
    ensures placer == Placers(m, |m.ir.edges|)
  {
    hide InOwnSpan, IsMapping;
    placer := map[];
    for i := 0 to |m.ir.edges|
      invariant placer == Placers(m, i)
    {
      if InOwnSpan(m, i) && m.ir.edges[i].to !in placer {
        placer := placer[m.ir.edges[i].to := i];
      }
    }
  }

  lemma {:induction false} PlacersPlace(m: Mapping, n: nat)
    requires m.Valid() && n <= |m.ir.edges|
    ensures forall t <- Placers(m, n) ::
              && Placers(m, n)[t] < n && m.ir.edges[Placers(m, n)[t]].to == t && InOwnSpan(m, Placers(m, n)[t])
              && forall i :: 0 <= i < Placers(m, n)[t] && m.ir.edges[i].to == t ==> !InOwnSpan(m, i)
    ensures forall i :: 0 <= i < n && InOwnSpan(m, i) ==> m.ir.edges[i].to in Placers(m, n)
  {
    hide InOwnSpan, IsMapping;
    if n > 0 {
      PlacersPlace(m, n - 1);
    }
  }

  predicate Straight(m: Mapping, i: nat)
    requires m.Valid() && i < |m.ir.edges|
  {
    var placer := Placers(m, |m.ir.edges|);
    m.ir.edges[i].to in placer && placer[m.ir.edges[i].to] == i
  }

  /** A reached target's row is one the triggers opened. */
  lemma ReachedRow(m: Mapping, i: nat)
    requires m.Valid() && i < |m.ir.edges|
    ensures m.ir.edges[i].to in m.RowsLaid().rowOf
    ensures m.RowsLaid().rowOf[m.ir.edges[i].to] < |TriggerRows(m.ir.edges, m.Triggers()[..|m.Triggers()|]).targets|
  {
    hide IsMapping, TriggerRows, AllRows, AddTargets;
    var triggers, e := m.Triggers(), m.ir.edges[i];
    EdgeEnds(m, i);
    var s := Position(triggers, e.from);
    var out := OutOf(m.ir.edges, triggers[s]);
    var k :| 0 <= k < |out| && out[k] == i;
    assert Reaches(m.ir.edges, triggers[s])[k] == e.to;
    SpanHolds(m.ir.edges, triggers, m.Targets(), s);
    if s < |triggers| - 1 {
      SpansInOrder(m.ir.edges, triggers, s, |triggers| - 1);
    }
  }

  lemma TriggersDistinct(m: Mapping, s: nat)
    requires m.Valid() && s < |m.Triggers()|
    ensures Position(m.Triggers(), m.Triggers()[s]) == s
  {
    InZoneHolds(m.ir.nodes, m.ir.zones[0].id);
  }

  /** An arrow of the trigger whose span holds its target reaches its own span. */
  lemma OwnSpanBy(m: Mapping, i: nat, s: nat)
    requires m.Valid() && i < |m.ir.edges| && s < |m.Triggers()| && m.ir.edges[i].from == m.Triggers()[s]
    requires m.ir.edges[i].to in m.RowsLaid().rowOf
    requires m.SpanOf(s).0 <= m.RowsLaid().rowOf[m.ir.edges[i].to] <= m.SpanOf(s).1
    ensures InOwnSpan(m, i)
  {
    hide IsMapping, Span, AllRows;
    TriggersDistinct(m, s);
  }

  /** Every target some arrow reaches is placed by an arrow. */
  lemma ReachedIsPlaced(m: Mapping, i: nat)
    requires m.Valid() && i < |m.ir.edges|
    ensures m.ir.edges[i].to in Placers(m, |m.ir.edges|)
  {
    hide IsMapping, TriggerRows, AllRows, InOwnSpan, Placers;
    var t, triggers := m.ir.edges[i].to, m.Triggers();
    ReachedRow(m, i);
    RowsHoldTargets(m);
    var own := RowHasTrigger(m.ir.edges, triggers, |triggers|, m.RowsLaid().rowOf[t]);
    SpanHolds(m.ir.edges, triggers, m.Targets(), own);
    var k :| 0 <= k < |Reaches(m.ir.edges, triggers[own])| && Reaches(m.ir.edges, triggers[own])[k] == t;
    var e := OutOf(m.ir.edges, triggers[own])[k];
    assert e in OutOf(m.ir.edges, triggers[own]);
    OwnSpanBy(m, e, own);
    PlacersPlace(m, |m.ir.edges|);
  }

  /** Two triggers never place one target: straight arrows into it are one. */
  lemma StraightIsOne(m: Mapping, i: nat, j: nat)
    requires m.Valid() && i < |m.ir.edges| && j < |m.ir.edges| && Straight(m, i) && Straight(m, j)
    requires m.ir.edges[i].to == m.ir.edges[j].to
    ensures i == j
  {
  }

  // ---- slots ----

  /** The order a target's arrows enter in: the one that placed it, then by their
      triggers' place in the source, then as written. */
  predicate EntersBefore(m: Mapping, p: nat, q: nat)
    requires m.Valid()
  {
    if p >= |m.ir.edges| || q >= |m.ir.edges| then p <= q
    else
      var fp, fq := if Straight(m, p) then 0 else 1, if Straight(m, q) then 0 else 1;
      var ap, aq := Author(m, p), Author(m, q);
      fp < fq || (fp == fq && (ap < aq || (ap == aq && p <= q)))
  }

  /** Where an arrow's trigger stands in the source. */
  function Author(m: Mapping, i: nat): nat
    requires m.Valid() && i < |m.ir.edges|
  {
    assert m.ir.edges[i] in m.ir.edges;
    IndexOf(m.ir.nodes, m.ir.edges[i].from)
  }

  function SlotOrder(m: Mapping, t: string): seq<nat>
    requires m.Valid()
  {
    SortBy((p: nat, q: nat) => EntersBefore(m, p, q), Into(m.ir.edges, t))
  }

  lemma SlotsHeld(m: Mapping, i: nat)
    requires m.Valid() && i < |m.ir.edges|
    ensures i in SlotOrder(m, m.ir.edges[i].to)
    ensures |SlotOrder(m, m.ir.edges[i].to)| == |Into(m.ir.edges, m.ir.edges[i].to)|
  {
    SortKeeps((p: nat, q: nat) => EntersBefore(m, p, q), Into(m.ir.edges, m.ir.edges[i].to));
  }

  function SlotOf(m: Mapping, i: nat): (j: nat)
    requires m.Valid() && i < |m.ir.edges|
    ensures j < |Into(m.ir.edges, m.ir.edges[i].to)|
  {
    SlotsHeld(m, i);
    Position(SlotOrder(m, m.ir.edges[i].to), i)
  }

  lemma EntersOrder(m: Mapping)
    requires m.Valid()
    ensures TotalPreorder((p: nat, q: nat) => EntersBefore(m, p, q))
  {
    hide IsMapping, Straight, IndexOf, Author;
  }

  /** The arrow that places a target takes its first slot. */
  lemma StraightTakesFirst(m: Mapping, i: nat)
    requires m.Valid() && i < |m.ir.edges| && Straight(m, i)
    ensures SlotOf(m, i) == 0
  {
    hide IsMapping, Author, Placers, SortBy;
    var t := m.ir.edges[i].to;
    var order := SlotOrder(m, t);
    var le := (p: nat, q: nat) => EntersBefore(m, p, q);
    SlotsHeld(m, i);
    SortKeeps(le, Into(m.ir.edges, t));
    EntersOrder(m);
    SortOrders(le, Into(m.ir.edges, t));
    var k := Position(order, i);
    assert order[0] in order;
    assert order[0] in Into(m.ir.edges, t);
    assert forall j :: 0 < j < |order| ==> EntersBefore(m, order[0], order[j]);
  }

  /** Where an arrow enters its target. */
  function Entry(m: Mapping, i: nat): int
    requires m.Valid() && i < |m.ir.edges|
  {
    IsReady(m);
    EdgeEnds(m, i);
    RowsHoldTargets(m);
    var t := m.ir.edges[i].to;
    SlotHeight(TargetSlab(m, t), |Into(m.ir.edges, t)|, m.Spacing(t), SlotOf(m, i))
  }

  lemma RowsTall(m: Mapping)
    requires m.Valid()
    ensures HeightsReady(m) && Heights(RowHeights(m))
    ensures forall k :: 0 <= k < |BaseHeights(m)| ==> RowHeights(m)[k] >= BaseHeights(m)[k]
    ensures forall i :: 0 <= i < |Spans(m)| && Spans(m)[i].0 == Spans(m)[i].1 ==>
              Spans(m)[i].0 < |RowHeights(m)| && RowHeights(m)[Spans(m)[i].0] >= TriggerHeights(m)[i]
  {
    IsReady(m);
    RaisedRoom(BaseHeights(m), Spans(m), TriggerHeights(m), |Spans(m)|);
  }

  lemma TargetRow(m: Mapping, t: string)
    requires m.Valid() && t in m.Targets()
    ensures HeightsReady(m) && HasNode(m.ir.nodes, t) && t in m.RowsLaid().rowOf
            && m.RowsLaid().rowOf[t] < |RowHeights(m)|
    ensures RowHeights(m)[m.RowsLaid().rowOf[t]] % 4 == 0 && m.TargetHeight(t) <= RowHeights(m)[m.RowsLaid().rowOf[t]]
  {
    hide IsMapping, Raised, AllRows, Spans, BoxWidth, BoxHeight, Slotted;
    RowsHoldTargets(m);
    RowsTall(m);
    var r := m.RowsLaid().rowOf[t];
    assert BaseHeights(m)[r] == m.TargetHeight(t);
    assert RowHeights(m)[r] >= BaseHeights(m)[r];
  }

  lemma MiddleOf(top: int, h: int, own: int)
    requires h % 4 == 0 && own % 4 == 0 && own <= h
    ensures var y := top + (h - own) / 2; top <= y && y + own <= top + h && 2 * y + own == 2 * top + h
  {
  }

  lemma TargetSlabRow(m: Mapping, t: string)
    requires m.Valid() && t in m.Targets()
    ensures HeightsReady(m) && HasNode(m.ir.nodes, t) && t in m.RowsLaid().rowOf
            && m.RowsLaid().rowOf[t] < |RowHeights(m)|
    ensures var box, r := TargetSlab(m, t), m.RowsLaid().rowOf[t];
            var top, h := RowTop(RowHeights(m), m.Gap(), r), RowHeights(m)[r];
            && box.h == m.TargetHeight(t) && top <= box.y && box.Foot() <= top + h && 2 * box.y + box.h == 2 * top + h
  {
    hide IsMapping, RowHeights, AllRows, Spans, RowTop, HeightsReady, Mapping.TargetHeight, Mapping.Gap;
    hide Mapping.RowsLaid, Mapping.Targets;
    TargetRow(m, t);
    MiddleOf(RowTop(RowHeights(m), m.Gap(), m.RowsLaid().rowOf[t]), RowHeights(m)[m.RowsLaid().rowOf[t]],
             m.TargetHeight(t));
  }

  /** An arrow enters within its target; a straight one no lower than its middle,
      which is its row's. */
  lemma EntryWithin(m: Mapping, i: nat)
    requires m.Valid() && i < |m.ir.edges|
    ensures HeightsReady(m) && HasNode(m.ir.nodes, m.ir.edges[i].to) && m.ir.edges[i].to in m.RowsLaid().rowOf
    ensures m.RowsLaid().rowOf[m.ir.edges[i].to] < |RowHeights(m)|
    ensures TargetSlab(m, m.ir.edges[i].to).y + HALF <= Entry(m, i) <= TargetSlab(m, m.ir.edges[i].to).Foot() - HALF
    ensures Straight(m, i) ==>
              2 * Entry(m, i) <= 2 * TargetSlab(m, m.ir.edges[i].to).y + TargetSlab(m, m.ir.edges[i].to).h
  {
    hide EntersBefore, SlotOrder, IsMapping;
    var t := m.ir.edges[i].to;
    EdgeEnds(m, i);
    RowsHoldTargets(m);
    TargetSlabRow(m, t);
    if Straight(m, i) {
      StraightTakesFirst(m, i);
    }
    var k, g := |Into(m.ir.edges, t)|, m.Spacing(t);
    assert m.TargetHeight(t) >= Slotted(k, g);
    SlotWithin(TargetSlab(m, t), k, g, SlotOf(m, i));
  }

  /** Two arrows into one target enter at least its spacing apart. */
  lemma EntriesApart(m: Mapping, i: nat, j: nat)
    requires m.Valid() && i < |m.ir.edges| && j < |m.ir.edges| && i != j && m.ir.edges[i].to == m.ir.edges[j].to
    ensures Away(Entry(m, i), Entry(m, j)) >= m.Spacing(m.ir.edges[i].to)
  {
    hide IsMapping, Raised, AllRows, Spans, SlotOrder, SlotHeight;
    var t := m.ir.edges[i].to;
    IsReady(m);
    EdgeEnds(m, i);
    RowsHoldTargets(m);
    var k := |Into(m.ir.edges, t)|;
    SlotsHeld(m, i);
    SlotsHeld(m, j);
    var a, b := SlotOf(m, i), SlotOf(m, j);
    assert a != b;
    if a < b {
      SlotsApart(TargetSlab(m, t), k, m.Spacing(t), a, b);
    } else {
      SlotsApart(TargetSlab(m, t), k, m.Spacing(t), b, a);
    }
  }
}
