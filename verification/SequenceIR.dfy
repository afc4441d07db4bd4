// What a sequence diagram says, read out of the renderer's parse: the
// sequenceIR loop of ui/src/diagramIR.ts.
module SequenceIR {
  import opened Geometry

  datatype Line = Solid | Dashed
  datatype Head = Filled | OpenHead | NoHead | Cross | Both
  datatype Side = Over | LeftOf | RightOf
  datatype Row =
    | Message(from: string, to: string, text: string, line: Line, head: Head)
    | Note(from: string, to: string, side: Side, text: string)
    | Frame(keyword: string, text: string)
    | Divider(keyword: string, text: string)
    | End
  datatype Actor = Actor(id: string, text: string)
  datatype SequenceIR = SequenceIR(actors: seq<Actor>, rows: seq<Row>)

  /** One message record of the parse. Labels arrive cleaned; a missing end is
      the empty string; visible is autonumber's own flag. */
  datatype Record =
    Record(kind: int, from: string, to: string, text: string, placement: Option<int>, visible: Option<bool>)
  datatype Db =
    Db(title: string, boxes: nat, created: nat, destroyed: nat, actors: seq<Actor>, messages: seq<Record>)

  /** The most frames open at once. */
  const MAX_DEPTH := 3
  const NOTE := 2
  const AUTONUMBER := 26

  /** The line types drawn as a message. */
  function Arrow(kind: int): Option<(Line, Head)> {
    match kind
    case 0 => Some((Solid, Filled))
    case 1 => Some((Dashed, Filled))
    case 3 => Some((Solid, Cross))
    case 4 => Some((Dashed, Cross))
    case 5 => Some((Solid, NoHead))
    case 6 => Some((Dashed, NoHead))
    case 24 => Some((Solid, OpenHead))
    case 25 => Some((Dashed, OpenHead))
    case 33 => Some((Solid, Both))
    case 34 => Some((Dashed, Both))
    case _ => None
  }

  function FrameKeyword(kind: int): Option<string> {
    match kind
    case 10 => Some("loop")
    case 12 => Some("alt")
    case 15 => Some("opt")
    case 19 => Some("par")
    case 27 => Some("critical")
    case 30 => Some("break")
    case _ => None
  }

  function DividerKeyword(kind: int): Option<string> {
    match kind
    case 13 => Some("else")
    case 20 => Some("and")
    case 28 => Some("option")
    case _ => None
  }

  predicate EndsFrame(kind: int) {
    kind in {11, 14, 16, 21, 29, 31}
  }

  /** activate and deactivate. */
  predicate Ignored(kind: int) {
    kind == 17 || kind == 18
  }

  function SideOf(placement: Option<int>): Side {
    if placement == Some(0) then LeftOf else if placement == Some(1) then RightOf else Over
  }

  /** The participants with an id, each labelled, by its id when its name says nothing. */
  function NamedActors(actors: seq<Actor>): seq<Actor> {
    if actors == [] then []
    else
      var rest := NamedActors(actors[1..]);
      var a := actors[0];
      if a.id == "" then rest else [Actor(a.id, if a.text == "" then a.id else a.text)] + rest
  }

  function Ids(actors: seq<Actor>): set<string> {
    set a <- actors :: a.id
  }

  datatype Reading = Refused | Reading(depth: nat, rows: seq<Row>)

  /** What one record adds, or that the diagram is not one this draws. */
  function ReadRecord(known: set<string>, r: Reading, m: Record): Reading {
    if r.Refused? then r
    else if Arrow(m.kind).Some? then
      if m.from !in known || m.to !in known then r
      else r.(rows := r.rows + [Message(m.from, m.to, m.text, Arrow(m.kind).value.0, Arrow(m.kind).value.1)])
    else if m.kind == NOTE then
      if m.from !in known || m.to !in known then r
      else r.(rows := r.rows + [Note(m.from, m.to, SideOf(m.placement), m.text)])
    else if FrameKeyword(m.kind).Some? then
      if r.depth + 1 > MAX_DEPTH then Refused
      else Reading(r.depth + 1, r.rows + [Frame(FrameKeyword(m.kind).value, m.text)])
    else if DividerKeyword(m.kind).Some? then
      if r.depth == 0 then Refused else r.(rows := r.rows + [Divider(DividerKeyword(m.kind).value, m.text)])
    else if EndsFrame(m.kind) then
      if r.depth == 0 then Refused else Reading(r.depth - 1, r.rows + [End])
    else if m.kind == AUTONUMBER then
      if m.visible != Some(false) then Refused else r
    else if !Ignored(m.kind) then Refused
    else r
  }

  function ReadAll(known: set<string>, messages: seq<Record>): Reading {
    if messages == [] then Reading(0, [])
    else ReadRecord(known, ReadAll(known, messages[..|messages| - 1]), messages[|messages| - 1])
  }

  function Read(db: Db): Option<SequenceIR> {
    var actors := NamedActors(db.actors);
    var r := ReadAll(Ids(actors), db.messages);
    if db.title != "" || db.boxes > 0 || db.created > 0 || db.destroyed > 0 || actors == [] then None
    else if r.Refused? || r.depth != 0 then None
    else Some(SequenceIR(actors, r.rows))
  }

  lemma ReadAllStep(known: set<string>, messages: seq<Record>, k: nat)
    requires k < |messages|
    ensures ReadAll(known, messages[..k + 1]) == ReadRecord(known, ReadAll(known, messages[..k]), messages[k])
  {
    assert messages[..k + 1][..k] == messages[..k];
  }

  lemma {:induction false} RefusedStays(known: set<string>, messages: seq<Record>, k: nat)
    requires k <= |messages| && ReadAll(known, messages[..k]).Refused?
    ensures ReadAll(known, messages).Refused?
    decreases |messages| - k
  {
    if k < |messages| {
      ReadAllStep(known, messages, k);
      RefusedStays(known, messages, k + 1);
    } else {
      assert messages[..k] == messages;
    }
  }

  method ReadSequence(db: Db) returns (ir: Option<SequenceIR>)
    ensures ir == Read(db)
  {
    if db.title != "" || db.boxes > 0 || db.created > 0 || db.destroyed > 0 {
      return None;
    }
    var actors := NamedActors(db.actors);
    if actors == [] {
      return None;
    }
    var known := Ids(actors);
    var rows := [];
    var depth: nat := 0;
    for k := 0 to |db.messages|
      invariant ReadAll(known, db.messages[..k]) == Reading(depth, rows)
    {
      var m := db.messages[k];
      ReadAllStep(known, db.messages, k);
      if Arrow(m.kind).Some? {
        if m.from !in known || m.to !in known {
          continue;
        }
        var (line, head) := Arrow(m.kind).value;
        rows := rows + [Message(m.from, m.to, m.text, line, head)];
      } else if m.kind == NOTE {
        if m.from !in known || m.to !in known {
          continue;
        }
        rows := rows + [Note(m.from, m.to, SideOf(m.placement), m.text)];
      } else if FrameKeyword(m.kind).Some? {
        depth := depth + 1;
        if depth > MAX_DEPTH {
          RefusedStays(known, db.messages, k + 1);
          return None;
        }
        rows := rows + [Frame(FrameKeyword(m.kind).value, m.text)];
      } else if DividerKeyword(m.kind).Some? {
        if depth == 0 {
          RefusedStays(known, db.messages, k + 1);
          return None;
        }
        rows := rows + [Divider(DividerKeyword(m.kind).value, m.text)];
      } else if EndsFrame(m.kind) {
        if depth == 0 {
          RefusedStays(known, db.messages, k + 1);
          return None;
        }
        depth := depth - 1;
        rows := rows + [End];
      } else if m.kind == AUTONUMBER {
        if m.visible != Some(false) {
          RefusedStays(known, db.messages, k + 1);
          return None;
        }
      } else if !Ignored(m.kind) {
        RefusedStays(known, db.messages, k + 1);
        return None;
      }
    }
    assert db.messages[..|db.messages|] == db.messages;
    if depth != 0 {
      return None;
    }
    return Some(SequenceIR(actors, rows));
  }

  // ---- what the layout may rely on ----

  /** How many frames are open after the rows, or nothing when a divider or an
      end stood outside every frame. */
  function Nesting(rows: seq<Row>): Option<nat> {
    if rows == [] then Some(0)
    else
      var before := Nesting(rows[..|rows| - 1]);
      match rows[|rows| - 1]
      case Frame(_, _) => if before.Some? then Some(before.value + 1) else None
      case Divider(_, _) => if before.Some? && before.value > 0 then before else None
      case End => if before.Some? && before.value > 0 then Some(before.value - 1) else None
      case _ => before
  }

  /** All through the rows no more frames are open than allowed. */
  predicate NestsWithin(rows: seq<Row>) {
    forall k :: 0 <= k <= |rows| ==> Nesting(rows[..k]).Some? && Nesting(rows[..k]).value <= MAX_DEPTH
  }

  predicate Distinct(actors: seq<Actor>) {
    forall i, j :: 0 <= i < j < |actors| ==> actors[i].id != actors[j].id
  }

  predicate KnownEnds(actors: seq<Actor>, rows: seq<Row>) {
    forall r <- rows :: r.Message? || r.Note? ==> r.from in Ids(actors) && r.to in Ids(actors)
  }

  /** A diagram to lay out: participants told apart by id, every message and
      note between known ones, frames balanced and dividers inside one. */
  predicate WellFormed(ir: SequenceIR) {
    && ir.actors != [] && Distinct(ir.actors)
    && KnownEnds(ir.actors, ir.rows)
    && Nesting(ir.rows) == Some(0)
  }

  lemma IdsMore(first: Actor, rest: seq<Actor>)
    ensures Ids([first] + rest) == Ids(rest) + {first.id}
  {
    assert forall a <- rest :: a in [first] + rest;
  }

  lemma {:induction false} NamedActorsDistinct(actors: seq<Actor>)
    requires Distinct(actors)
    ensures Distinct(NamedActors(actors))
    ensures Ids(NamedActors(actors)) == Ids(actors) - {""}
  {
    if actors == [] {
      assert Ids(actors) == {};
    } else {
      var rest := NamedActors(actors[1..]);
      NamedActorsDistinct(actors[1..]);
      var named := NamedActors(actors);
      assert actors == [actors[0]] + actors[1..];
      IdsMore(actors[0], actors[1..]);
      if actors[0].id != "" {
        assert named[0].id == actors[0].id && named[1..] == rest;
        assert Ids(named) == Ids(rest) + {actors[0].id} by {
          assert named == [named[0]] + rest;
          IdsMore(named[0], rest);
        }
        forall j | 0 <= j < |rest| ensures rest[j].id != actors[0].id {
          assert rest[j].id in Ids(rest);
          var a :| a in actors[1..] && a.id == rest[j].id;
        }
      }
    }
  }

  lemma {:induction false} ReadAllNests(actors: seq<Actor>, messages: seq<Record>)
    requires ReadAll(Ids(actors), messages).Reading?
    ensures var r := ReadAll(Ids(actors), messages);
            r.depth <= MAX_DEPTH && Nesting(r.rows) == Some(r.depth) && KnownEnds(actors, r.rows) && NestsWithin(r.rows)
  {
    hide ReadRecord, Nesting, KnownEnds, NestsWithin;
    if messages == [] {
      NoRowsNest(actors);
    } else {
      var init := messages[..|messages| - 1];
      var r := ReadAll(Ids(actors), messages);
      assert ReadAll(Ids(actors), init).Reading?
      by { RefusedReads(Ids(actors), ReadAll(Ids(actors), init), messages[|messages| - 1]); }
      ReadAllNests(actors, init);
      RecordNests(actors, ReadAll(Ids(actors), init), messages[|messages| - 1]);
    }
  }

  lemma NoRowsNest(actors: seq<Actor>)
    ensures Nesting([]) == Some(0) && KnownEnds(actors, []) && NestsWithin([])
  {
  }

  lemma RefusedReads(known: set<string>, r: Reading, m: Record)
    requires ReadRecord(known, r, m).Reading?
    ensures r.Reading?
  {
  }

  /** One more row, and how deep it leaves the frames. */
  lemma RowNests(actors: seq<Actor>, rows: seq<Row>, row: Row)
    requires KnownEnds(actors, rows) && (row.Message? || row.Note? ==> row.from in Ids(actors) && row.to in Ids(actors))
    ensures KnownEnds(actors, rows + [row])
    ensures Nesting(rows + [row])
            == (match row
                case Frame(_, _) => if Nesting(rows).Some? then Some(Nesting(rows).value + 1) else None
                case Divider(_, _) => if Nesting(rows).Some? && Nesting(rows).value > 0 then Nesting(rows) else None
                case End => if Nesting(rows).Some? && Nesting(rows).value > 0 then Some(Nesting(rows).value - 1)
                            else None
                case _ => Nesting(rows))
  {
    assert (rows + [row])[..|rows|] == rows;
  }

  lemma RecordNests(actors: seq<Actor>, r: Reading, m: Record)
    requires r.Reading? && r.depth <= MAX_DEPTH && Nesting(r.rows) == Some(r.depth) && KnownEnds(actors, r.rows)
    requires NestsWithin(r.rows)
    requires ReadRecord(Ids(actors), r, m).Reading?
    ensures var after := ReadRecord(Ids(actors), r, m);
            && after.depth <= MAX_DEPTH && Nesting(after.rows) == Some(after.depth) && KnownEnds(actors, after.rows)
            && NestsWithin(after.rows)
  {
    hide Nesting, KnownEnds, Ids, NestsWithin;
    var after := ReadRecord(Ids(actors), r, m);
    if after.rows != r.rows {
      var row := after.rows[|after.rows| - 1];
      assert after.rows == r.rows + [row];
      RowNests(actors, r.rows, row);
      RowNestsWithin(r.rows, row);
    }
  }

  lemma RowNestsWithin(rows: seq<Row>, row: Row)
    requires NestsWithin(rows) && Nesting(rows + [row]).Some? && Nesting(rows + [row]).value <= MAX_DEPTH
    ensures NestsWithin(rows + [row])
  {
    hide Nesting;
    var more := rows + [row];
    forall k | 0 <= k <= |more| ensures Nesting(more[..k]).Some? && Nesting(more[..k]).value <= MAX_DEPTH {
      assert more[..k] == if k <= |rows| then rows[..k] else more;
    }
  }

  /** Whatever the reader accepts is a diagram the layout can rely on, its frames never
      deeper than allowed. */
  lemma ReadIsWellFormed(db: Db)
    requires Distinct(db.actors) && Read(db).Some?
    ensures WellFormed(Read(db).value) && NestsWithin(Read(db).value.rows)
  {
    NamedActorsDistinct(db.actors);
    ReadAllNests(NamedActors(db.actors), db.messages);
  }
}
