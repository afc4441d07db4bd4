// The order a mapping is drawn in: rows by the arrow that first reaches their target, entries
// by their triggers, triggers under one another (layoutMapping, ui/src/diagramLayout.ts).
module MappingOrder {
  import opened Counting
  import opened Sorting
  import opened Geometry
  import opened Flow
  import opened MappingRows
  import opened MappingColumns
  import opened FlowMapping
  import opened MappingArrows
  import opened MappingTriggers

  // ---- which arrow comes first ----

  /** Where an arrow's trigger is written. */
  function Writer(m: Mapping, i: nat): (k: nat)
    requires m.Valid() && i < |m.ir.edges|
    ensures k < |m.ir.nodes| && m.ir.nodes[k].id == m.ir.edges[i].from
  {
    assert m.ir.edges[i] in m.ir.edges;
    IndexOf(m.ir.nodes, m.ir.edges[i].from)
  }

  /** By its trigger's place among the nodes, then as written. */
  predicate Earlier(m: Mapping, i: nat, j: nat)
    requires m.Valid() && i < |m.ir.edges| && j < |m.ir.edges|
  {
    Writer(m, i) < Writer(m, j) || (Writer(m, i) == Writer(m, j) && i < j)
  }

  /** No other arrow reaches its target earlier. */
  predicate Opens(m: Mapping, i: nat)
    requires m.Valid() && i < |m.ir.edges|
  {
    forall j :: 0 <= j < |m.ir.edges| && j != i && m.ir.edges[j].to == m.ir.edges[i].to ==> Earlier(m, i, j)
  }

  /** The place of an arrow's trigger among the triggers. */
  function Place(m: Mapping, i: nat): (s: nat)
    requires m.Valid() && i < |m.ir.edges|
    ensures s < |m.Triggers()| && m.Triggers()[s] == m.ir.edges[i].from
  {
    EdgeEnds(m, i);
    Position(m.Triggers(), m.ir.edges[i].from)
  }

  /** Nodes of one subgraph are listed as they are written. */
  lemma {:induction false} ZoneOrder(nodes: seq<FlowNode>, zone: string, a: nat, b: nat)
    requires DistinctIds(nodes) && a < b < |InZone(nodes, zone)|
    ensures HasNode(nodes, InZone(nodes, zone)[a]) && HasNode(nodes, InZone(nodes, zone)[b])
    ensures IndexOf(nodes, InZone(nodes, zone)[a]) < IndexOf(nodes, InZone(nodes, zone)[b])
  {
    var last := |nodes| - 1;
    var ids, init := InZone(nodes, zone), InZone(nodes[..last], zone);
    assert ids[a] in ids && ids[b] in ids;
    assert ids[a] == init[a] && init[a] in init;
    SameIndex(nodes, init[a]);
    if b < |init| {
      assert ids[b] == init[b] && init[b] in init;
      SameIndex(nodes, init[b]);
      ZoneOrder(nodes[..last], zone, a, b);
    } else {
      IndexUnique(nodes, last);
    }
  }

  lemma SameIndex(nodes: seq<FlowNode>, id: string)
    requires nodes != [] && DistinctIds(nodes) && HasNode(nodes[..|nodes| - 1], id)
    ensures HasNode(nodes, id) && IndexOf(nodes, id) == IndexOf(nodes[..|nodes| - 1], id) < |nodes| - 1
  {
    var i := IndexOf(nodes[..|nodes| - 1], id);
    assert nodes[i].id == id;
    IndexUnique(nodes, i);
  }

  lemma PlaceOrder(m: Mapping, i: nat, j: nat)
    requires m.Valid() && i < |m.ir.edges| && j < |m.ir.edges|
    ensures Writer(m, i) < Writer(m, j) <==> Place(m, i) < Place(m, j)
    ensures Writer(m, i) == Writer(m, j) <==> Place(m, i) == Place(m, j)
  {
    hide IsMapping, InZone, IndexOf;
    var zone := m.ir.zones[0].id;
    assert m.Triggers() == InZone(m.ir.nodes, zone);
    var a, b := Place(m, i), Place(m, j);
    if a < b {
      ZoneOrder(m.ir.nodes, zone, a, b);
    } else if b < a {
      ZoneOrder(m.ir.nodes, zone, b, a);
    }
  }

  // ---- rows ----

  lemma {:induction false} AddedOnly(rs: Rows, ids: seq<string>, t: string)
    requires t in AddTargets(rs, ids).rowOf
    ensures t in rs.rowOf || t in ids
  {
    if ids != [] {
      var n := |ids| - 1;
      assert ids[n] in ids;
      if t in AddTargets(rs, ids[..n]).rowOf {
        AddedOnly(rs, ids[..n], t);
      }
    }
  }

  /** Of two targets new to the rows, the one named first takes the row above. */
  lemma {:induction false} AddedInOrder(rs: Rows, ids: seq<string>, j: nat, k: nat)
    requires RowsOk(rs) && j < k < |ids| && ids[j] !in rs.rowOf && ids[k] !in rs.rowOf
    requires forall l :: 0 <= l < k ==> ids[l] != ids[k]
    ensures var after := AddTargets(rs, ids); ids[j] in after.rowOf && ids[k] in after.rowOf
                                              && after.rowOf[ids[j]] < after.rowOf[ids[k]]
  {
    hide RowsOk, Extends;
    var n := |ids| - 1;
    var init := ids[..n];
    assert ids == init + [ids[n]];
    RowsStand(rs, init);
    if k < n {
      AddedInOrder(rs, init, j, k);
    } else {
      if ids[k] in AddTargets(rs, init).rowOf {
        AddedOnly(rs, init, ids[k]);
      }
      assert init[j] in init;
    }
  }

  lemma RowsStand(rs: Rows, ids: seq<string>)
    requires RowsOk(rs)
    ensures var more := AddTargets(rs, ids);
            && (forall t <- ids :: t in more.rowOf) && (forall t <- more.rowOf :: more.rowOf[t] < |more.targets|)
  {
    AddTargetsOk(rs, ids);
  }

  /** A target has its row only once a trigger that reaches it has come. */
  lemma {:induction false} PlacedBy(edges: seq<FlowEdge>, triggers: seq<string>, n: nat, t: string) returns (s: nat)
    requires n <= |triggers| && t in TriggerRows(edges, triggers[..n]).rowOf
    ensures s < n && t in Reaches(edges, triggers[s])
  {
    hide Reaches;
    assert n > 0;
    OpensSome(edges, triggers, n - 1);
    if t in TriggerRows(edges, triggers[..n - 1]).rowOf {
      s := PlacedBy(edges, triggers, n - 1, t);
    } else {
      s := n - 1;
      AddedOnly(TriggerRows(edges, triggers[..n - 1]), Reaches(edges, triggers[n - 1]), t);
    }
  }

  lemma ReachedFrom(m: Mapping, s: nat, t: string) returns (i: nat)
    requires m.Valid() && s < |m.Triggers()| && t in Reaches(m.ir.edges, m.Triggers()[s])
    ensures i < |m.ir.edges| && m.ir.edges[i].to == t && Place(m, i) == s
  {
    hide IsMapping, Mapping.Triggers;
    var out := OutOf(m.ir.edges, m.Triggers()[s]);
    var k :| 0 <= k < |out| && m.ir.edges[out[k]].to == t;
    i := out[k];
    assert i in out;
    TriggersDistinct(m, s);
  }

  /** An arrow that opens its target's row finds it not placed. */
  lemma NotPlacedBefore(m: Mapping, i: nat)
    requires m.Valid() && i < |m.ir.edges| && Opens(m, i)
    ensures m.ir.edges[i].to !in TriggerRows(m.ir.edges, m.Triggers()[..Place(m, i)]).rowOf
  {
    hide IsMapping, TriggerRows, Reaches, Writer, Mapping.Triggers;
    var t, s := m.ir.edges[i].to, Place(m, i);
    if t in TriggerRows(m.ir.edges, m.Triggers()[..s]).rowOf {
      var r := PlacedBy(m.ir.edges, m.Triggers(), s, t);
      var j := ReachedFrom(m, r, t);
      PlaceOrder(m, i, j);
    }
  }

  /** Its row is one its own trigger spans. */
  lemma OpensOwnRow(m: Mapping, i: nat)
    requires m.Valid() && i < |m.ir.edges| && Opens(m, i)
    ensures m.ir.edges[i].to in m.RowsLaid().rowOf
    ensures m.SpanOf(Place(m, i)).0 <= m.RowsLaid().rowOf[m.ir.edges[i].to] <= m.SpanOf(Place(m, i)).1
  {
    hide IsMapping, TriggerRows, Reaches, Writer, Opens, Mapping.Triggers, Mapping.Targets;
    var t, s, triggers, edges := m.ir.edges[i].to, Place(m, i), m.Triggers(), m.ir.edges;
    NotPlacedBefore(m, i);
    ReachesIt(m, i);
    SpanHolds(edges, triggers, m.Targets(), s);
    TriggerRowsOk(edges, triggers[..s]);
    LaterRowsExtend(edges, triggers, s, |triggers|);
    AllRowsOk(edges, triggers, m.Targets());
    assert triggers[..|triggers|] == triggers;
    ExtendsTrans(TriggerRows(edges, triggers[..s]), TriggerRows(edges, triggers), m.RowsLaid());
  }

  lemma ReachesIt(m: Mapping, i: nat)
    requires m.Valid() && i < |m.ir.edges|
    ensures m.ir.edges[i].to in Reaches(m.ir.edges, m.Triggers()[Place(m, i)])
  {
    hide IsMapping, Mapping.Triggers, OutOf;
    var out := OutOf(m.ir.edges, m.Triggers()[Place(m, i)]);
    var k :| 0 <= k < |out| && out[k] == i;
    assert Reaches(m.ir.edges, m.Triggers()[Place(m, i)])[k] == m.ir.edges[i].to;
  }

  /** The arrow that runs straight is the first to reach its target. */
  lemma StraightOpens(m: Mapping, i: nat)
    requires m.Valid() && i < |m.ir.edges| && Straight(m, i)
    ensures Opens(m, i)
  {
    hide IsMapping, Writer, Place, InOwnSpan, Placers, Mapping.Triggers, Mapping.RowsLaid, Mapping.SpanOf;
    var first := FirstTo(m, i);
    OpensOwnRow(m, first);
    StraightSpan(m, i);
    if Place(m, first) != Place(m, i) {
      SpansDiffer(m, Place(m, first), Place(m, i));
    }
    PlaceOrder(m, first, i);
    if first != i {
      OwnSpanBy(m, first, Place(m, first));
      StraightFirst(m, i, first);
    }
  }

  lemma StraightFirst(m: Mapping, i: nat, j: nat)
    requires m.Valid() && i < |m.ir.edges| && j < |m.ir.edges| && Straight(m, i)
    requires m.ir.edges[j].to == m.ir.edges[i].to && InOwnSpan(m, j)
    ensures i <= j
  {
    hide IsMapping, InOwnSpan, Placers;
    PlacersPlace(m, |m.ir.edges|);
    StraightPlaces(m, i);
  }

  lemma StraightSpan(m: Mapping, i: nat)
    requires m.Valid() && i < |m.ir.edges| && Straight(m, i)
    ensures m.ir.edges[i].to in m.RowsLaid().rowOf
    ensures m.SpanOf(Place(m, i)).0 <= m.RowsLaid().rowOf[m.ir.edges[i].to] <= m.SpanOf(Place(m, i)).1
  {
    hide IsMapping, Straight, Mapping.RowsLaid, Mapping.SpanOf, Mapping.Triggers;
    StraightInSpan(m, i);
  }

  lemma SpansDiffer(m: Mapping, r: nat, s: nat)
    requires m.Valid() && r < |m.Triggers()| && s < |m.Triggers()| && r != s
    ensures m.SpanOf(r).1 < m.SpanOf(s).0 || m.SpanOf(s).1 < m.SpanOf(r).0
    ensures m.SpanOf(r).0 <= m.SpanOf(r).1 && m.SpanOf(s).0 <= m.SpanOf(s).1
    ensures r < s <==> m.SpanOf(r).1 < m.SpanOf(s).0
  {
    hide IsMapping, Mapping.Triggers;
    if r < s {
      SpansInOrder(m.ir.edges, m.Triggers(), r, s);
    } else {
      SpansInOrder(m.ir.edges, m.Triggers(), s, r);
    }
  }

  /** Some arrow is the first to reach a target reached. */
  lemma FirstTo(m: Mapping, i: nat) returns (first: nat)
    requires m.Valid() && i < |m.ir.edges|
    ensures first < |m.ir.edges| && m.ir.edges[first].to == m.ir.edges[i].to && Opens(m, first)
  {
    hide IsMapping, Writer;
    first := i;
    for j := 0 to |m.ir.edges|
      invariant first < |m.ir.edges| && m.ir.edges[first].to == m.ir.edges[i].to
      invariant forall k :: 0 <= k < j && k != first && m.ir.edges[k].to == m.ir.edges[i].to ==> Earlier(m, first, k)
    {
      if m.ir.edges[j].to == m.ir.edges[i].to && j != first && Earlier(m, j, first) {
        first := j;
      }
    }
  }

  /** An arrow runs straight exactly when no other reaches its target earlier. */
  lemma StraightIff(m: Mapping, i: nat)
    requires m.Valid() && i < |m.ir.edges|
    ensures Straight(m, i) <==> Opens(m, i)
  {
    hide IsMapping, Writer, Straight;
    if Straight(m, i) {
      StraightOpens(m, i);
    }
    if Opens(m, i) {
      PlacedStraight(m, i);
      var p :| 0 <= p < |m.ir.edges| && m.ir.edges[p].to == m.ir.edges[i].to && Straight(m, p);
      StraightOpens(m, p);
    }
  }

  /** Rows stand in the order of the arrows that first reach their targets, each in the span
      of that arrow's trigger. */
  lemma RowsInOrder(m: Mapping, i: nat, j: nat)
    requires m.Valid() && i < |m.ir.edges| && j < |m.ir.edges| && i != j && Opens(m, i) && Opens(m, j)
    ensures var rowOf, t, u := m.RowsLaid().rowOf, m.ir.edges[i].to, m.ir.edges[j].to;
            && t in rowOf && u in rowOf && (rowOf[t] < rowOf[u] <==> Earlier(m, i, j))
            && m.SpanOf(Place(m, i)).0 <= rowOf[t] <= m.SpanOf(Place(m, i)).1
  {
    hide IsMapping, Writer, Place, Opens, Mapping.Triggers, Mapping.RowsLaid, Mapping.SpanOf;
    OpensOwnRow(m, i);
    OpensOwnRow(m, j);
    PlaceOrder(m, i, j);
    if Place(m, i) != Place(m, j) {
      SpansDiffer(m, Place(m, i), Place(m, j));
    } else if i < j {
      SameTriggerRows(m, i, j);
    } else {
      SameTriggerRows(m, j, i);
    }
  }

  lemma LaterElsewhere(m: Mapping, j: nat, k: nat)
    requires m.Valid() && k < j < |m.ir.edges| && Opens(m, j) && m.ir.edges[k].from == m.ir.edges[j].from
    ensures m.ir.edges[k].to != m.ir.edges[j].to
  {
    hide IsMapping, IndexOf;
    assert Writer(m, k) == Writer(m, j);
  }

  lemma SameTriggerRows(m: Mapping, i: nat, j: nat)
    requires m.Valid() && i < j < |m.ir.edges| && Opens(m, i) && Opens(m, j) && Place(m, i) == Place(m, j)
    ensures var rowOf, t, u := m.RowsLaid().rowOf, m.ir.edges[i].to, m.ir.edges[j].to;
            t in rowOf && u in rowOf && rowOf[t] < rowOf[u]
  {
    hide IsMapping, Writer, TriggerRows, Mapping.Triggers, OutOf, Mapping.Targets, AddTargets;
    var edges, triggers, s := m.ir.edges, m.Triggers(), Place(m, i);
    var out, before := OutOf(edges, triggers[s]), TriggerRows(edges, triggers[..s]);
    NotPlacedBefore(m, i);
    NotPlacedBefore(m, j);
    var a :| 0 <= a < |out| && out[a] == i;
    var b :| 0 <= b < |out| && out[b] == j;
    var ids := Reaches(edges, triggers[s]);
    forall l | 0 <= l < b ensures ids[l] != ids[b] {
      assert out[l] in out && out[b] in out;
      LaterElsewhere(m, j, out[l]);
    }
    TriggerRowsOk(edges, triggers[..s]);
    AddedInOrder(before, ids, a, b);
    OpensSome(edges, triggers, s);
    LaterRowsExtend(edges, triggers, s + 1, |triggers|);
    AllRowsOk(edges, triggers, m.Targets());
    assert triggers[..|triggers|] == triggers;
    ExtendsTrans(TriggerRows(edges, triggers[..s + 1]), TriggerRows(edges, triggers), m.RowsLaid());
  }

  /** No arrow leads there. */
  predicate Unreached(m: Mapping, t: string) {
    forall i :: 0 <= i < |m.ir.edges| ==> m.ir.edges[i].to != t
  }

  /** Targets none reaches stand below all others, in the order written. */
  lemma UnreachedLast(m: Mapping, t: nat, u: nat)
    requires m.Valid() && t < |m.Targets()| && u < |m.Targets()| && t != u && Unreached(m, m.Targets()[u])
    ensures var rowOf := m.RowsLaid().rowOf;
            && m.Targets()[t] in rowOf && m.Targets()[u] in rowOf
            && (rowOf[m.Targets()[t]] < rowOf[m.Targets()[u]] <==> !Unreached(m, m.Targets()[t]) || t < u)
  {
    hide IsMapping, TriggerRows, AddTargets, Reaches, Unreached, Mapping.Triggers;
    var edges, triggers, targets := m.ir.edges, m.Triggers(), m.Targets();
    var own := TriggerRows(edges, triggers);
    assert targets[t] in targets && targets[u] in targets;
    TriggerRowsOk(edges, triggers);
    AllRowsOk(edges, triggers, targets);
    NotOwn(m, u);
    if Unreached(m, targets[t]) {
      NotOwn(m, t);
      TargetsUnlike(m);
      if t < u {
        AddedInOrder(own, targets, t, u);
      } else {
        AddedInOrder(own, targets, u, t);
      }
    } else {
      OwnOne(m, t);
    }
  }

  lemma TargetsUnlike(m: Mapping)
    requires m.Valid()
    ensures forall j, k :: 0 <= j < k < |m.Targets()| ==> m.Targets()[j] != m.Targets()[k]
  {
    InZoneHolds(m.ir.nodes, m.ir.zones[1].id);
  }

  lemma NotOwn(m: Mapping, u: nat)
    requires m.Valid() && u < |m.Targets()| && Unreached(m, m.Targets()[u])
    ensures m.Targets()[u] !in TriggerRows(m.ir.edges, m.Triggers()).rowOf
  {
    hide IsMapping, TriggerRows, Reaches, Mapping.Triggers, Mapping.Targets, Place;
    var triggers := m.Triggers();
    if m.Targets()[u] in TriggerRows(m.ir.edges, triggers).rowOf {
      assert triggers[..|triggers|] == triggers;
      var s := PlacedBy(m.ir.edges, triggers, |triggers|, m.Targets()[u]);
      var i := ReachedFrom(m, s, m.Targets()[u]);
    }
  }

  lemma OwnOne(m: Mapping, t: nat)
    requires m.Valid() && t < |m.Targets()| && !Unreached(m, m.Targets()[t])
    ensures m.Targets()[t] in TriggerRows(m.ir.edges, m.Triggers()).rowOf
  {
    hide IsMapping, TriggerRows, Reaches, Mapping.Triggers, Mapping.Targets, Place;
    var i :| 0 <= i < |m.ir.edges| && m.ir.edges[i].to == m.Targets()[t];
    ReachesIt(m, i);
    var edges, triggers, s := m.ir.edges, m.Triggers(), Place(m, i);
    OpensSome(edges, triggers, s);
    TriggerRowsOk(edges, triggers[..s]);
    OpenRowsOk(edges, TriggerRows(edges, triggers[..s]), triggers[s]);
    LaterRowsExtend(edges, triggers, s + 1, |triggers|);
    assert triggers[..|triggers|] == triggers;
  }

  // ---- entries ----

  /** Arrows into one target enter it from the top in their order. */
  lemma EntriesInOrder(m: Mapping, i: nat, j: nat)
    requires m.Valid() && i < |m.ir.edges| && j < |m.ir.edges| && i != j && m.ir.edges[i].to == m.ir.edges[j].to
    ensures Entry(m, i) < Entry(m, j) <==> Earlier(m, i, j)
  {
    hide IsMapping, SlotHeight, Straight, Writer, SlotOf, EntersBefore, TargetSlab, HeightsReady, Earlier;
    hide Mapping.Spacing, Mapping.RowsLaid, Mapping.Targets;
    var t := m.ir.edges[i].to;
    SlotsInOrder(m, i, j);
    EdgeEnds(m, i);
    IsReady(m);
    RowsHoldTargets(m);
    var k, a, b := |Into(m.ir.edges, t)|, SlotOf(m, i), SlotOf(m, j);
    if a < b {
      SlotsApart(TargetSlab(m, t), k, m.Spacing(t), a, b);
    } else {
      SlotsApart(TargetSlab(m, t), k, m.Spacing(t), b, a);
    }
  }

  lemma SlotsInOrder(m: Mapping, i: nat, j: nat)
    requires m.Valid() && i < |m.ir.edges| && j < |m.ir.edges| && i != j && m.ir.edges[i].to == m.ir.edges[j].to
    ensures SlotOf(m, i) != SlotOf(m, j) && |Into(m.ir.edges, m.ir.edges[i].to)| >= 2
    ensures SlotOf(m, i) < SlotOf(m, j) <==> Earlier(m, i, j)
  {
    hide IsMapping, Straight, SortBy, Author, Writer;
    var t := m.ir.edges[i].to;
    var order, le := SlotOrder(m, t), (p: nat, q: nat) => EntersBefore(m, p, q);
    SlotsHeld(m, i);
    SlotsHeld(m, j);
    EntersOrder(m);
    SortOrders(le, Into(m.ir.edges, t));
    EntersAsEarlier(m, i, j);
    EntersAsEarlier(m, j, i);
    var a, b := SlotOf(m, i), SlotOf(m, j);
    if a < b {
      assert EntersBefore(m, order[a], order[b]);
    } else {
      assert EntersBefore(m, order[b], order[a]);
    }
  }

  lemma EntersAsEarlier(m: Mapping, i: nat, j: nat)
    requires m.Valid() && i < |m.ir.edges| && j < |m.ir.edges| && i != j && m.ir.edges[i].to == m.ir.edges[j].to
    ensures EntersBefore(m, i, j) <==> Earlier(m, i, j)
  {
    StraightIff(m, i);
    StraightIff(m, j);
    hide IsMapping, Straight, IndexOf;
    assert Author(m, i) == Writer(m, i) && Author(m, j) == Writer(m, j);
    hide Author, Writer;
  }

  // ---- triggers down the column ----

  lemma {:induction false} SlabsPrefix(spans: seq<(nat, nat)>, ths: seq<int>, levels: seq<Option<int>>, hs: seq<int>,
                                       gap: int, n: nat, k: nat)
    requires SpansOk(spans, |hs|) && k <= n <= |spans| == |ths| == |levels|
    ensures Slabs(spans, ths, levels, hs, gap, n)[..k] == Slabs(spans, ths, levels, hs, gap, k)
  {
    hide TriggerSlab;
    if k < n {
      SlabsPrefix(spans, ths, levels, hs, gap, n - 1, k);
    }
  }

  lemma SlabIs(spans: seq<(nat, nat)>, ths: seq<int>, levels: seq<Option<int>>, hs: seq<int>, gap: int, s: nat)
    requires SpansOk(spans, |hs|) && s < |spans| == |ths| == |levels|
    ensures var slabs := Slabs(spans, ths, levels, hs, gap, |spans|);
            slabs[s] == TriggerSlab(spans[s], ths[s], levels[s], if s == 0 then ZONE_TOP
                                    else slabs[s - 1].Foot() + ROW_GAP,
                                    hs, gap)
  {
    hide TriggerSlab;
    var n, m := |spans|, s + 1;
    SlabsPrefix(spans, ths, levels, hs, gap, n, s);
    SlabsPrefix(spans, ths, levels, hs, gap, n, m);
    var slabs := Slabs(spans, ths, levels, hs, gap, n);
    assert slabs[..m][s] == slabs[s];
    assert slabs[..m] == slabs[..s] + [slabs[s]];
    if s > 0 {
      assert slabs[..s][s - 1] == slabs[s - 1];
    }
  }

  /** Where the next box of the column may start: 44 down, or 20 under the one above. */
  function FloorOf(m: Mapping, s: nat): int
    requires m.Valid() && s < |m.Triggers()|
  {
    if s == 0 then 44 else TriggerSlabs(m)[s - 1].Foot() + 20
  }

  /** A trigger of one row stands right under the one above, unless an arrow runs straight out
      of it: then it is centred on that arrow, or under the one above where that is lower. One
      of several rows starts where its first row does. */
  lemma TriggerStands(m: Mapping, s: nat, i: nat)
    requires m.Valid() && s < |m.Triggers()| && m.SpanOf(s).0 == m.SpanOf(s).1 && i < |m.ir.edges|
    ensures var box := TriggerSlabs(m)[s];
            && ((forall j :: 0 <= j < |m.ir.edges| && m.ir.edges[j].from == m.Triggers()[s] ==> !Opens(m, j)) ==>
                  box.y == FloorOf(m, s))
            && (m.ir.edges[i].from == m.Triggers()[s] && Opens(m, i) ==>
                  box.y >= FloorOf(m, s)
                  && (box.y == FloorOf(m, s) || 2 * box.y + box.h <= 2 * Entry(m, i) + 1)
                  && 2 * box.y + box.h >= 2 * Entry(m, i))
  {
    hide IsMapping, AllRows, RowTop, RowHeights, Slabs, Opens, Straight, Entry, Mapping.Triggers, Mapping.SpanOf;
    hide SlabOk, Mapping.TriggerHeight, HeightsReady;
    TriggersReady(m);
    SpansReady(m);
    SlabIs(FlowMapping.Spans(m), TriggerHeights(m), Levels(m), RowHeights(m), m.Gap(), s);
    assert FlowMapping.Spans(m)[s] == m.SpanOf(s) && Levels(m)[s] == Level(m, m.Triggers()[s]);
    FirstStraightFirst(m, m.Triggers()[s], |m.ir.edges|);
    forall j: nat | j < |m.ir.edges| ensures Straight(m, j) <==> Opens(m, j) {
      StraightIff(m, j);
    }
    if m.ir.edges[i].from == m.Triggers()[s] && Opens(m, i) {
      OneRowOneStraight(m, i, FirstStraight(m, m.Triggers()[s], |m.ir.edges|).value, s);
    }
  }

  lemma SpansReady(m: Mapping)
    requires m.Valid()
    ensures HeightsReady(m) && SpansOk(FlowMapping.Spans(m), |RowHeights(m)|)
    ensures |FlowMapping.Spans(m)| == |TriggerHeights(m)| == |Levels(m)| == |m.Triggers()|
  {
    hide IsMapping, RowHeights;
    IsReady(m);
  }
}
