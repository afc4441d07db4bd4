// The rows of a trigger-to-target mapping (layoutMapping in
// ui/src/diagramLayout.ts): which row each target takes and which rows each
// trigger spans.
module MappingRows {
  import opened Geometry
  import opened Flow

  /** Rows in order, each with the target it holds, if any, and where each target
      stands. */
  datatype Rows = Rows(targets: seq<Option<string>>, rowOf: map<string, nat>)

  const NO_ROWS := Rows([], map[])

  function AddTarget(rs: Rows, t: string): Rows {
    if t in rs.rowOf then rs else Rows(rs.targets + [Some(t)], rs.rowOf[t := |rs.targets|])
  }

  function AddTargets(rs: Rows, ids: seq<string>): Rows {
    if ids == [] then rs else AddTarget(AddTargets(rs, ids[..|ids| - 1]), ids[|ids| - 1])
  }

  /** The targets a trigger's arrows reach, in the order written. */
  function Reaches(edges: seq<FlowEdge>, id: string): seq<string> {
    var out := OutOf(edges, id);
    assert forall k :: 0 <= k < |out| ==> out[k] in out;
    seq(|out|, k requires 0 <= k < |out| => edges[out[k]].to)
  }

  /** The rows after one more trigger: its new targets', or a row with no target. */
  function OpenRows(edges: seq<FlowEdge>, rs: Rows, trigger: string): Rows {
    var more := AddTargets(rs, Reaches(edges, trigger));
    if |more.targets| == |rs.targets| then more.(targets := more.targets + [None]) else more
  }

  function TriggerRows(edges: seq<FlowEdge>, triggers: seq<string>): Rows {
    if triggers == [] then NO_ROWS
    else OpenRows(edges, TriggerRows(edges, triggers[..|triggers| - 1]), triggers[|triggers| - 1])
  }

  /** The rows trigger i spans, first and last. */
  function Span(edges: seq<FlowEdge>, triggers: seq<string>, i: nat): (span: (nat, nat))
    requires i < |triggers|
    ensures span.0 == |TriggerRows(edges, triggers[..i]).targets|
    ensures span.0 <= span.1
    ensures span.1 + 1 == |TriggerRows(edges, triggers[..i + 1]).targets|
  {
    OpensSome(edges, triggers, i);
    (|TriggerRows(edges, triggers[..i]).targets|, |TriggerRows(edges, triggers[..i + 1]).targets| - 1)
  }

  function AllRows(edges: seq<FlowEdge>, triggers: seq<string>, targets: seq<string>): Rows {
    AddTargets(TriggerRows(edges, triggers), targets)
  }

  // ---- what the rows are ----

  /** Each target has the one row that holds it. */
  predicate RowsOk(rs: Rows) {
    && (forall t <- rs.rowOf :: rs.rowOf[t] < |rs.targets| && rs.targets[rs.rowOf[t]] == Some(t))
    && (forall k :: 0 <= k < |rs.targets| && rs.targets[k].Some? ==>
          rs.targets[k].value in rs.rowOf && rs.rowOf[rs.targets[k].value] == k)
  }

  /** more has every row of rs where it was. */
  predicate Extends(rs: Rows, more: Rows) {
    && rs.targets <= more.targets
    && (forall t <- rs.rowOf :: t in more.rowOf && more.rowOf[t] == rs.rowOf[t])
    && (forall t <- more.rowOf :: t in rs.rowOf || more.rowOf[t] >= |rs.targets|)
  }

  lemma {:induction false} AddTargetsOk(rs: Rows, ids: seq<string>)
    requires RowsOk(rs)
    ensures RowsOk(AddTargets(rs, ids)) && Extends(rs, AddTargets(rs, ids))
    ensures forall t <- ids :: t in AddTargets(rs, ids).rowOf
    ensures forall k :: |rs.targets| <= k < |AddTargets(rs, ids).targets| ==>
              AddTargets(rs, ids).targets[k].Some? && AddTargets(rs, ids).targets[k].value in ids
  {
    if ids != [] {
      AddTargetsOk(rs, ids[..|ids| - 1]);
      assert ids == ids[..|ids| - 1] + [ids[|ids| - 1]];
    }
  }

  lemma OpenRowsOk(edges: seq<FlowEdge>, rs: Rows, trigger: string)
    requires RowsOk(rs)
    ensures var more := OpenRows(edges, rs, trigger);
            && RowsOk(more) && Extends(rs, more) && |rs.targets| < |more.targets|
            && (forall t <- Reaches(edges, trigger) :: t in more.rowOf)
            && (forall k :: |rs.targets| <= k < |more.targets| ==>
                  if more.targets[k].Some? then more.targets[k].value in Reaches(edges, trigger)
                  else |more.targets| == |rs.targets| + 1)
  {
    AddTargetsOk(rs, Reaches(edges, trigger));
  }

  lemma {:induction false} TriggerRowsOk(edges: seq<FlowEdge>, triggers: seq<string>)
    ensures RowsOk(TriggerRows(edges, triggers))
  {
    if triggers != [] {
      TriggerRowsOk(edges, triggers[..|triggers| - 1]);
      OpenRowsOk(edges, TriggerRows(edges, triggers[..|triggers| - 1]), triggers[|triggers| - 1]);
    }
  }

  lemma OpensSome(edges: seq<FlowEdge>, triggers: seq<string>, i: nat)
    requires i < |triggers|
    ensures TriggerRows(edges, triggers[..i + 1]) == OpenRows(edges, TriggerRows(edges, triggers[..i]), triggers[i])
    ensures |TriggerRows(edges, triggers[..i]).targets| < |TriggerRows(edges, triggers[..i + 1]).targets|
  {
    assert triggers[..i + 1][..i] == triggers[..i];
    TriggerRowsOk(edges, triggers[..i]);
    OpenRowsOk(edges, TriggerRows(edges, triggers[..i]), triggers[i]);
  }

  lemma ExtendsTrans(a: Rows, b: Rows, c: Rows)
    requires Extends(a, b) && Extends(b, c)
    ensures Extends(a, c)
  {
    assert |a.targets| <= |b.targets|;
  }

  lemma ExtendsItself(rs: Rows)
    ensures Extends(rs, rs)
  {
  }

  lemma {:induction false} LaterRowsExtend(edges: seq<FlowEdge>, triggers: seq<string>, i: nat, j: nat)
    requires i <= j <= |triggers|
    ensures Extends(TriggerRows(edges, triggers[..i]), TriggerRows(edges, triggers[..j]))
    decreases j - i
  {
    hide Extends, TriggerRows, OpenRows, RowsOk;
    if i == j {
      ExtendsItself(TriggerRows(edges, triggers[..i]));
    } else {
      LaterRowsExtend(edges, triggers, i, j - 1);
      OpensSome(edges, triggers, j - 1);
      TriggerRowsOk(edges, triggers[..j - 1]);
      OpenRowsOk(edges, TriggerRows(edges, triggers[..j - 1]), triggers[j - 1]);
      ExtendsTrans(TriggerRows(edges, triggers[..i]), TriggerRows(edges, triggers[..j - 1]),
                   TriggerRows(edges, triggers[..j]));
    }
  }

  lemma AllRowsOk(edges: seq<FlowEdge>, triggers: seq<string>, targets: seq<string>)
    ensures RowsOk(AllRows(edges, triggers, targets))
    ensures Extends(TriggerRows(edges, triggers), AllRows(edges, triggers, targets))
    ensures forall t <- targets :: t in AllRows(edges, triggers, targets).rowOf
  {
    TriggerRowsOk(edges, triggers);
    AddTargetsOk(TriggerRows(edges, triggers), targets);
  }

  /** Triggers span rows one after another, none shared and none between them. */
  lemma SpansInOrder(edges: seq<FlowEdge>, triggers: seq<string>, i: nat, j: nat)
    requires i < j < |triggers|
    ensures Span(edges, triggers, i).1 < Span(edges, triggers, j).0
    ensures j == i + 1 ==> Span(edges, triggers, j).0 == Span(edges, triggers, i).1 + 1
  {
    LaterRowsExtend(edges, triggers, i + 1, j);
  }

  /** How a trigger's span stands in all the rows: within them, holding only
      targets it reaches, all of them unless it is one row; and every target it
      reaches stands in its span or above. */
  lemma SpanHolds(edges: seq<FlowEdge>, triggers: seq<string>, targets: seq<string>, i: nat)
    requires i < |triggers|
    ensures var rs, (a, b) := AllRows(edges, triggers, targets), Span(edges, triggers, i);
            && b < |rs.targets|
            && (forall k :: a <= k <= b ==>
                if rs.targets[k].Some? then rs.targets[k].value in Reaches(edges, triggers[i]) else a == b)
            && (forall t <- Reaches(edges, triggers[i]) :: t in rs.rowOf && rs.rowOf[t] <= b)
  {
    var before, after := TriggerRows(edges, triggers[..i]), TriggerRows(edges, triggers[..i + 1]);
    var rs := AllRows(edges, triggers, targets);
    TriggerRowsOk(edges, triggers[..i]);
    OpensSome(edges, triggers, i);
    OpenRowsOk(edges, before, triggers[i]);
    LaterRowsExtend(edges, triggers, i + 1, |triggers|);
    assert triggers[..|triggers|] == triggers;
    AllRowsOk(edges, triggers, targets);
    ExtendsTrans(after, TriggerRows(edges, triggers), rs);
    forall k | Span(edges, triggers, i).0 <= k <= Span(edges, triggers, i).1 ensures rs.targets[k] == after.targets[k] {
    }
  }

  /** Every row a trigger opened lies in one trigger's span. */
  lemma NoTriggerNoRow(edges: seq<FlowEdge>, triggers: seq<string>)
    ensures TriggerRows(edges, triggers[..0]).targets == []
  {
  }

  lemma {:induction false} RowHasTrigger(edges: seq<FlowEdge>, triggers: seq<string>, n: nat, k: nat) returns (i: nat)
    requires n <= |triggers| && k < |TriggerRows(edges, triggers[..n]).targets|
    ensures i < n && Span(edges, triggers, i).0 <= k <= Span(edges, triggers, i).1
  {
    hide TriggerRows;
    assert n > 0 by { NoTriggerNoRow(edges, triggers); }
    if k < |TriggerRows(edges, triggers[..n - 1]).targets| {
      i := RowHasTrigger(edges, triggers, n - 1, k);
    } else {
      i := n - 1;
    }
  }

  // ---- the rows as they are laid ----

  /** Gives each target not yet placed the next row. */
  method PlaceTargets(rows: seq<Option<string>>, rowOf: map<string, nat>, ids: seq<string>)
    returns (rows': seq<Option<string>>, rowOf': map<string, nat>)
    ensures Rows(rows', rowOf') == AddTargets(Rows(rows, rowOf), ids)
  {
    rows', rowOf' := rows, rowOf;
    for k := 0 to |ids|
      invariant Rows(rows', rowOf') == AddTargets(Rows(rows, rowOf), ids[..k])
    {
      assert ids[..k + 1][..k] == ids[..k];
      if ids[k] in rowOf' {
        continue;
      }
      rowOf' := rowOf'[ids[k] := |rows'|];
      rows' := rows' + [Some(ids[k])];
    }
    assert ids[..|ids|] == ids;
  }

  /** The triggers in turn, then the targets none of them reached. */
  method LayRows(edges: seq<FlowEdge>, triggers: seq<string>, targets: seq<string>)
    returns (rows: seq<Option<string>>, rowOf: map<string, nat>, spans: seq<(nat, nat)>)
    ensures Rows(rows, rowOf) == AllRows(edges, triggers, targets)
    ensures |spans| == |triggers| && forall i :: 0 <= i < |triggers| ==> spans[i] == Span(edges, triggers, i)
  {
    hide AddTargets, Reaches;
    rows, rowOf, spans := [], map[], [];
    for i := 0 to |triggers|
      invariant Rows(rows, rowOf) == TriggerRows(edges, triggers[..i])
      invariant |spans| == i && forall j :: 0 <= j < i ==> spans[j] == Span(edges, triggers, j)
    {
      var first := |rows|;
      rows, rowOf := PlaceTargets(rows, rowOf, Reaches(edges, triggers[i]));
      if |rows| == first {
        rows := rows + [None];
      }
      OpensSome(edges, triggers, i);
      spans := spans + [(first, |rows| - 1)];
    }
    assert triggers[..|triggers|] == triggers;
    rows, rowOf := PlaceTargets(rows, rowOf, targets);
  }
}
