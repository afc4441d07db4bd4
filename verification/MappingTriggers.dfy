// The triggers of a mapping and their exits: boxes under a running floor, a
// straight arrow level in its box, and a free height for every other.
module MappingTriggers {
  import opened Counting
  import opened Geometry
  import opened Flow
  import opened MappingRows
  import opened MappingColumns
  import opened MappingExits
  import opened FlowMapping
  import opened MappingArrows

  // ---- the triggers' boxes ----

  /** The first straight arrow out of a trigger among the first n arrows. */
  function FirstStraight(m: Mapping, s: string, n: nat): (r: Option<nat>)
    requires m.Valid() && n <= |m.ir.edges|
    ensures r.Some? ==> r.value < n
  {
    if n == 0 then None
    else
      var before := FirstStraight(m, s, n - 1);
      if before.Some? then before
      else if Straight(m, n - 1) && m.ir.edges[n - 1].from == s then Some(n - 1) else None
  }

  lemma {:induction false} FirstStraightFirst(m: Mapping, s: string, n: nat)
    requires m.Valid() && n <= |m.ir.edges|
    ensures var r := FirstStraight(m, s, n);
            && (r.Some? ==> Straight(m, r.value) && m.ir.edges[r.value].from == s)
            && (r.None? ==> forall i :: 0 <= i < n && m.ir.edges[i].from == s ==> !Straight(m, i))
  {
    hide IsMapping, Straight;
    if n > 0 {
      FirstStraightFirst(m, s, n - 1);
    }
  }

  /** The height of a trigger's first straight arrow. */
  function Level(m: Mapping, s: string): Option<int>
    requires m.Valid()
  {
    var first := FirstStraight(m, s, |m.ir.edges|);
    if first.Some? then Some(Entry(m, first.value)) else None
  }

  function Levels(m: Mapping): (levels: seq<Option<int>>)
    requires m.Valid()
    ensures |levels| == |m.Triggers()|
  {
    seq(|m.Triggers()|, i requires 0 <= i < |m.Triggers()| => Level(m, m.Triggers()[i]))
  }

  function TriggerSlabs(m: Mapping): (slabs: seq<Slab>)
    requires m.Valid()
    ensures |slabs| == |m.Triggers()|
  {
    RowsTall(m);
    Slabs(Spans(m), TriggerHeights(m), Levels(m), RowHeights(m), m.Gap(), |m.Triggers()|)
  }

  /** A straight arrow's target stands in its trigger's span. */
  lemma StraightInSpan(m: Mapping, i: nat)
    requires m.Valid() && i < |m.ir.edges| && Straight(m, i)
    ensures m.ir.edges[i].from in m.Triggers() && m.ir.edges[i].to in m.Targets()
            && m.ir.edges[i].to in m.RowsLaid().rowOf
    ensures var span := m.SpanOf(Position(m.Triggers(), m.ir.edges[i].from));
            span.0 <= m.RowsLaid().rowOf[m.ir.edges[i].to] <= span.1
  {
    hide IsMapping, AllRows, Span, Placers;
    EdgeEnds(m, i);
    RowsHoldTargets(m);
    assert InOwnSpan(m, i) by {
      hide InOwnSpan;
      PlacersPlace(m, |m.ir.edges|);
      assert Placers(m, |m.ir.edges|)[m.ir.edges[i].to] == i by {
        StraightPlaces(m, i);
      }
      StraightPlaces(m, i);
    }
  }

  lemma StraightPlaces(m: Mapping, i: nat)
    requires m.Valid() && i < |m.ir.edges| && Straight(m, i)
    ensures m.ir.edges[i].to in Placers(m, |m.ir.edges|) && Placers(m, |m.ir.edges|)[m.ir.edges[i].to] == i
  {
  }

  lemma OneRowOneTarget(m: Mapping, t: string, u: string)
    requires m.Valid() && t in m.RowsLaid().rowOf && u in m.RowsLaid().rowOf
             && m.RowsLaid().rowOf[t] == m.RowsLaid().rowOf[u]
    ensures t == u
  {
    hide IsMapping, AllRows;
    RowsHoldTargets(m);
    var rs := m.RowsLaid();
    assert rs.targets[rs.rowOf[t]] == Some(t) && rs.targets[rs.rowOf[u]] == Some(u);
  }

  /** Targets stand a gap apart. */
  lemma TargetSlabsApart(m: Mapping, t: string, u: string)
    requires m.Valid() && t in m.Targets() && u in m.Targets() && t != u
    ensures HeightsReady(m) && HasNode(m.ir.nodes, t) && t in m.RowsLaid().rowOf
            && m.RowsLaid().rowOf[t] < |RowHeights(m)|
    ensures HasNode(m.ir.nodes, u) && u in m.RowsLaid().rowOf && m.RowsLaid().rowOf[u] < |RowHeights(m)|
    ensures var a, b := TargetSlab(m, t), TargetSlab(m, u); a.Foot() + m.Gap() <= b.y || b.Foot() + m.Gap() <= a.y
  {
    hide IsMapping, AllRows, HeightsReady, RowHeights, RowTop, TargetSlab, Mapping.TargetHeight, Mapping.Gap;
    TargetSlabRow(m, t);
    TargetSlabRow(m, u);
    var r, q := m.RowsLaid().rowOf[t], m.RowsLaid().rowOf[u];
    if r == q {
      OneRowOneTarget(m, t, u);
    }
    RowsTall(m);
    if r < q {
      RowsDescend(RowHeights(m), m.Gap(), r, q);
    } else {
      RowsDescend(RowHeights(m), m.Gap(), q, r);
    }
  }

  /** Any two arrows enter at least 16 apart, into one target or two. */
  lemma EntriesAway(m: Mapping, i: nat, j: nat)
    requires m.Valid() && i < |m.ir.edges| && j < |m.ir.edges| && i != j
    ensures Away(Entry(m, i), Entry(m, j)) >= APART
  {
    hide IsMapping, AllRows, HeightsReady, RowHeights, TargetSlab, Entry, Mapping.Spacing, Mapping.Gap;
    hide Mapping.RowsLaid, Mapping.Targets;
    if m.ir.edges[i].to == m.ir.edges[j].to {
      EntriesApart(m, i, j);
    } else {
      EdgeEnds(m, i);
      EdgeEnds(m, j);
      EntryWithin(m, i);
      EntryWithin(m, j);
      TargetSlabsApart(m, m.ir.edges[i].to, m.ir.edges[j].to);
    }
  }

  /** A trigger of one row has at most one straight arrow. */
  lemma OneRowOneStraight(m: Mapping, i: nat, j: nat, s: nat)
    requires m.Valid() && i < |m.ir.edges| && j < |m.ir.edges| && s < |m.Triggers()| && m.SpanOf(s).0 == m.SpanOf(s).1
    requires m.ir.edges[i].from == m.ir.edges[j].from == m.Triggers()[s] && Straight(m, i) && Straight(m, j)
    ensures i == j
  {
    hide IsMapping, AllRows, Span, Straight, Mapping.Triggers;
    StraightInSpan(m, i);
    StraightInSpan(m, j);
    TriggersDistinct(m, s);
    OneRowOneTarget(m, m.ir.edges[i].to, m.ir.edges[j].to);
    StraightIsOne(m, i, j);
  }

  /** A straight arrow runs in its target's row, no lower than the row's middle. */
  lemma StraightInTargetRow(m: Mapping, i: nat)
    requires m.Valid() && i < |m.ir.edges| && Straight(m, i)
    ensures HeightsReady(m) && m.ir.edges[i].to in m.RowsLaid().rowOf
            && m.RowsLaid().rowOf[m.ir.edges[i].to] < |RowHeights(m)|
    ensures var r := m.RowsLaid().rowOf[m.ir.edges[i].to];
            var top, h := RowTop(RowHeights(m), m.Gap(), r), RowHeights(m)[r];
            top + HALF <= Entry(m, i) <= top + h - HALF && 2 * Entry(m, i) <= 2 * top + h
  {
    hide IsMapping, AllRows, Straight, Entry, RowHeights, TargetSlab, HeightsReady, RowTop, Mapping.Triggers;
    EdgeEnds(m, i);
    EntryWithin(m, i);
    TargetSlabRow(m, m.ir.edges[i].to);
  }

  lemma StraightInRow(m: Mapping, s: nat, i: nat)
    requires m.Valid() && s < |m.Triggers()| && m.SpanOf(s).0 == m.SpanOf(s).1
    requires i < |m.ir.edges| && Straight(m, i) && m.ir.edges[i].from == m.Triggers()[s]
    ensures m.ir.edges[i].to in m.RowsLaid().rowOf && m.RowsLaid().rowOf[m.ir.edges[i].to] == m.SpanOf(s).0
  {
    hide IsMapping, AllRows, Straight, Span, Mapping.Triggers;
    StraightInSpan(m, i);
    TriggersDistinct(m, s);
  }

  lemma LevelInRow(m: Mapping, s: nat)
    requires m.Valid() && s < |m.Triggers()| && m.SpanOf(s).0 == m.SpanOf(s).1 && Level(m, m.Triggers()[s]).Some?
    ensures HeightsReady(m) && m.SpanOf(s).0 < |RowHeights(m)|
    ensures var top, h := RowTop(RowHeights(m), m.Gap(), m.SpanOf(s).0), RowHeights(m)[m.SpanOf(s).0];
            top + HALF <= Level(m, m.Triggers()[s]).value && 2 * Level(m, m.Triggers()[s]).value <= 2 * top + h
  {
    hide IsMapping, AllRows, Span, Straight, Entry, RowHeights, FirstStraight, RowTop, Mapping.Triggers;
    FirstStraightFirst(m, m.Triggers()[s], |m.ir.edges|);
    StraightInRow(m, s, FirstStraight(m, m.Triggers()[s], |m.ir.edges|).value);
    StraightInTargetRow(m, FirstStraight(m, m.Triggers()[s], |m.ir.edges|).value);
  }

  lemma TriggersReady(m: Mapping)
    requires m.Valid()
    ensures HeightsReady(m) && TriggersOk(Spans(m), TriggerHeights(m), Levels(m), RowHeights(m), m.Gap())
  {
    hide IsMapping, AllRows, Span, RowTop, Level, RowHeights;
    RowsTall(m);
    forall s | 0 <= s < |Spans(m)| && Spans(m)[s].0 == Spans(m)[s].1 && Levels(m)[s].Some?
      ensures var top := RowTop(RowHeights(m), m.Gap(), Spans(m)[s].0);
              top + HALF <= Levels(m)[s].value && 2 * Levels(m)[s].value <= 2 * top + RowHeights(m)[Spans(m)[s].0]
    {
      LevelInRow(m, s);
    }
  }

  /** By the running floor: no two triggers overlap, each stands a gap below the one
      above, and none reaches below its own rows. */
  lemma TriggersApart(m: Mapping, i: nat, j: nat)
    requires m.Valid() && i < j < |m.Triggers()|
    ensures TriggerSlabs(m)[i].h >= 40
    ensures TriggerSlabs(m)[i].Foot() + ROW_GAP <= TriggerSlabs(m)[j].y
  {
    hide IsMapping, AllRows, RowTop, Level, RowHeights, Slabs, TriggersOk;
    TriggersReady(m);
    SlabsFollow(Spans(m), TriggerHeights(m), Levels(m), RowHeights(m), m.Gap(), |m.Triggers()|);
    TriggerTall(m, i);
  }

  lemma TriggerPlaced(m: Mapping, i: nat)
    requires m.Valid() && i < |m.Triggers()|
    ensures HeightsReady(m) && m.SpanOf(i).0 <= m.SpanOf(i).1 < |RowHeights(m)|
    ensures SlabOk(TriggerSlabs(m)[i], m.SpanOf(i), m.TriggerHeight(m.Triggers()[i]), Level(m, m.Triggers()[i]),
                   RowHeights(m), m.Gap())
  {
    hide IsMapping, AllRows, RowTop, Level, RowHeights, Slabs, TriggersOk, SlabOk;
    TriggersReady(m);
    SlabsFollow(Spans(m), TriggerHeights(m), Levels(m), RowHeights(m), m.Gap(), |m.Triggers()|);
    assert Spans(m)[i] == m.SpanOf(i);
  }

  /** Each trigger stays within the foot of its own rows. */
  lemma TriggerWithinRows(m: Mapping, i: nat)
    requires m.Valid() && i < |m.Triggers()|
    ensures HeightsReady(m) && m.SpanOf(i).1 < |RowHeights(m)|
    ensures TriggerSlabs(m)[i].Foot() <= RowTop(RowHeights(m), m.Gap(), m.SpanOf(i).1) + RowHeights(m)[m.SpanOf(i).1]
  {
    hide IsMapping, AllRows, RowTop, Level, RowHeights, TriggerSlabs;
    TriggerPlaced(m, i);
  }

  lemma TriggerTall(m: Mapping, i: nat)
    requires m.Valid() && i < |m.Triggers()|
    ensures TriggerSlabs(m)[i].h >= 40
  {
    hide IsMapping, AllRows, Level, RowHeights, TriggerSlabs;
    TriggerPlaced(m, i);
    var (a, b) := m.SpanOf(i);
    if a != b {
      RowsTall(m);
      RowsDescend(RowHeights(m), m.Gap(), a, b);
      SpanHolds(m.ir.edges, m.Triggers(), m.Targets(), i);
      RowsHoldTargets(m);
      TargetRow(m, m.RowsLaid().targets[b].value);
    }
  }

  /** Every reached target has exactly one arrow that places it; that arrow runs
      straight, at one height within its target and within its trigger. */
  lemma PlacedStraight(m: Mapping, i: nat)
    requires m.Valid() && i < |m.ir.edges|
    ensures exists p :: 0 <= p < |m.ir.edges| && m.ir.edges[p].to == m.ir.edges[i].to && Straight(m, p)
    ensures forall p, q :: (0 <= p < |m.ir.edges| && 0 <= q < |m.ir.edges| && Straight(m, p) && Straight(m, q)
                            && m.ir.edges[p].to == m.ir.edges[q].to) ==> p == q
  {
    hide IsMapping, Placers;
    ReachedIsPlaced(m, i);
    PlacersPlace(m, |m.ir.edges|);
    var p := Placers(m, |m.ir.edges|)[m.ir.edges[i].to];
    assert Straight(m, p);
  }

  /** A straight arrow's trigger spans its height. */
  lemma StraightMeetsTrigger(m: Mapping, p: nat, s: nat)
    requires m.Valid() && p < |m.ir.edges| && Straight(m, p) && s < |m.Triggers()|
             && m.ir.edges[p].from == m.Triggers()[s]
    ensures TriggerSlabs(m)[s].y + HALF <= Entry(m, p) <= TriggerSlabs(m)[s].Foot() - HALF
  {
    hide IsMapping, AllRows, RowHeights, TriggerSlabs, TargetSlab, Entry, Straight, HeightsReady, RowTop;
    hide Mapping.Triggers, Span;
    TriggerPlaced(m, s);
    if m.SpanOf(s).0 == m.SpanOf(s).1 {
      FirstStraightFirst(m, m.Triggers()[s], |m.ir.edges|);
      OneRowOneStraight(m, p, FirstStraight(m, m.Triggers()[s], |m.ir.edges|).value, s);
    } else {
      StraightInSpan(m, p);
      TriggersDistinct(m, s);
      EntryWithin(m, p);
      TargetSlabRow(m, m.ir.edges[p].to);
      RowsTall(m);
      RowsDescend(RowHeights(m), m.Gap(), m.SpanOf(s).0, m.RowsLaid().rowOf[m.ir.edges[p].to]);
      RowsDescend(RowHeights(m), m.Gap(), m.RowsLaid().rowOf[m.ir.edges[p].to], m.SpanOf(s).1);
    }
  }
}
