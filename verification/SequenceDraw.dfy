// layoutSequence of ui/src/diagramSequence.ts as it runs: one pass down the rows
// with a running height and a stack of open frames.
module SequenceDraw {
  import opened Geometry
  import opened SequenceIR
  import opened SequenceColumns
  import opened SequenceLayout
  import opened SequenceCheck
  import opened SequenceTheorem

  lemma Regroup(a: seq<Constraint>, b: seq<Constraint>, c: seq<Constraint>)
    ensures a + b + c == a + (b + c)
  {
  }

  lemma NoRowCons(fonts: Fonts, actors: seq<Actor>)
    ensures AllRowCons(fonts, actors, []) == []
  {
  }

  lemma NextRowCons(fonts: Fonts, actors: seq<Actor>, rows: seq<Row>, k: nat)
    requires KnownEnds(actors, rows) && k < |rows|
    ensures KnownRow(actors, rows[k]) && KnownEnds(actors, rows[..k]) && KnownEnds(actors, rows[..k + 1])
    ensures AllRowCons(fonts, actors, rows[..k + 1])
            == AllRowCons(fonts, actors, rows[..k]) + RowCons(fonts, actors, rows[k])
  {
    assert rows[..k + 1][..k] == rows[..k];
  }

  method NeighbourRoom(plates: seq<Plate>) returns (cons: seq<Constraint>)
    requires plates != []
    ensures cons == NeighbourCons(plates, |plates| - 1)
  {
    cons := [];
    for i := 0 to |plates| - 1
      invariant cons == NeighbourCons(plates, i)
    {
      cons := cons + [Constraint(i, i + 1, plates[i].w / 2.0 + plates[i + 1].w / 2.0 + COL_GAP)];
    }
  }

  method RowRoom(fonts: Fonts, ir: SequenceIR, near: seq<Constraint>) returns (cons: seq<Constraint>)
    requires KnownEnds(ir.actors, ir.rows)
    ensures cons == near + AllRowCons(fonts, ir.actors, ir.rows)
  {
    hide RowCons, AllRowCons;
    cons := near;
    NoRowCons(fonts, ir.actors);
    assert ir.rows[..0] == [];
    for k := 0 to |ir.rows|
      invariant cons == near + AllRowCons(fonts, ir.actors, ir.rows[..k])
    {
      NextRowCons(fonts, ir.actors, ir.rows, k);
      Regroup(near, AllRowCons(fonts, ir.actors, ir.rows[..k]), RowCons(fonts, ir.actors, ir.rows[k]));
      cons := cons + RowCons(fonts, ir.actors, ir.rows[k]);
    }
    assert ir.rows[..|ir.rows|] == ir.rows;
  }

  method LifelineColumns(fonts: Fonts, ir: SequenceIR) returns (xs: seq<real>)
    requires ir.actors != [] && KnownEnds(ir.actors, ir.rows)
    ensures xs == Lifelines(fonts, ir)
  {
    hide AllRowCons, NeighbourCons, ColumnsOf, PlateOf;
    var plates := Plates(fonts, ir.actors);
    var near := NeighbourRoom(plates);
    var cons := RowRoom(fonts, ir, near);
    xs := Columns(|plates|, cons);
  }

  /** Places the rows one under another between lifelines that stand already. */
  method StackRows(env: Env, start: real, rows: seq<Row>) returns (s: State)
    requires env.Valid() && KnownEnds(env.actors, rows)
    ensures s == PlaceRows(env, start, rows)
  {
    hide PlaceMessage, BelowMessage, PlaceNote, OpenFrame, PlaceDivider, CloseFrame, MessageBoxes, Hold, DividerY;
    hide DividerFoot, Col;
    var y := start;
    var messages, notes, frames, stack := [], [], [], [];
    for k := 0 to |rows|
      invariant State(y, messages, notes, frames, stack) == PlaceRows(env, start, rows[..k])
    {
      ghost var before := State(y, messages, notes, frames, stack);
      assert rows[..k + 1][..k] == rows[..k];
      assert before.Valid(env);
      var r := rows[k];
      assert KnownRow(env.actors, r);
      match r {
        case Message(from, to, _, _, _) =>
          var i, j := Col(env.actors, from), Col(env.actors, to);
          var m := PlaceMessage(env, y, r, stack != []);
          y := BelowMessage(env, y, r);
          messages := messages + [m];
          stack := Hold(stack, {i, j}, MessageBoxes(env, m, i));
        case Note(from, to, _, _) =>
          var note := PlaceNote(env, y, r);
          notes := notes + [note];
          stack := Hold(stack, {Col(env.actors, from), Col(env.actors, to)}, [note.box]);
          y := y + note.box.h + ROW_GAP;
        case Frame(_, _) =>
          var f := OpenFrame(env.fonts, y, r);
          frames := frames + [f];
          stack := stack + [Open(|frames| - 1, {}, [], f.title.y + f.title.h + DIVIDER_GAP)];
          y := y + (2.0 * TITLE_PAD + f.title.h);
        case Divider(_, _) =>
          if stack != [] {
            var open := stack[|stack| - 1];
            var d := PlaceDivider(env.fonts, DividerY(y, open.floor), r);
            var f := frames[open.f];
            frames := frames[open.f := f.(dividers := f.dividers + [d])];
            stack := stack[..|stack| - 1] + [open.(floor := DividerFoot(d) + DIVIDER_GAP)];
            y := DividerFoot(d) + 12.0;
          }
        case End =>
          if stack != [] {
            var open := stack[|stack| - 1];
            stack := stack[..|stack| - 1];
            var parent := if stack == [] then None else Some(stack[|stack| - 1]);
            var f := CloseFrame(env, y, frames[open.f], open, parent);
            frames := frames[open.f := f];
            stack := Hold(stack, open.cols, [f.box]);
            y := f.box.y + f.box.h + ROW_GAP;
          }
      }
      assert State(y, messages, notes, frames, stack) == PlaceRow(env, before, r);
    }
    assert rows[..|rows|] == rows;
    s := State(y, messages, notes, frames, stack);
  }

  method LayoutSequence(fonts: Fonts, ir: SequenceIR) returns (l: SequenceLayout)
    requires ir.actors != [] && KnownEnds(ir.actors, ir.rows)
    ensures l == Layout(fonts, ir)
  {
    hide Lifelines, PlaceRows, Framed, PlaceActors, PlaceLifelines;
    var xs := LifelineColumns(fonts, ir);
    var env := Env(fonts, ir.actors, xs);
    var top := TopOf(env);
    var s := StackRows(env, top + 24.0, ir.rows);
    var bottom := BottomOf(s);
    l := Framed(PlaceActors(fonts, ir.actors, xs), PlaceLifelines(ir.actors, xs, top, bottom), s, bottom);
  }

  /** Reads, lays out and checks a diagram: whatever the reader accepts, the check
      finds nothing wrong with. */
  method DrawSequence(fonts: Fonts, db: Db) returns (l: Option<SequenceLayout>, findings: seq<Finding>)
    requires Distinct(db.actors)
    ensures l.Some? <==> Read(db).Some?
    ensures l.Some? ==> WellFormed(Read(db).value) && l.value == Layout(fonts, Read(db).value)
    ensures findings == []
  {
    hide Layout, Clean;
    var ir := ReadSequence(db);
    if ir.None? {
      return None, [];
    }
    ReadIsWellFormed(db);
    var layout := LayoutSequence(fonts, ir.value);
    LayoutClean(fonts, ir.value);
    findings := CheckSequence(fonts.adv, layout);
    l := Some(layout);
  }
}
