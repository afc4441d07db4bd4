// What the reader makes of a parsed sequence diagram: which records become rows and what each
// row says, and exactly which diagrams it takes (sequenceIR, ui/src/diagramIR.ts).
module SequenceReading {
  import opened Geometry
  import opened SequenceIR

  // ---- what a record is ----

  predicate IsMessage(m: Record) {
    m.kind in {0, 1, 3, 4, 5, 6, 24, 25, 33, 34}
  }

  predicate IsNote(m: Record) {
    m.kind == 2
  }

  predicate OpensFrame(m: Record) {
    m.kind in {10, 12, 15, 19, 27, 30}
  }

  predicate Divides(m: Record) {
    m.kind in {13, 20, 28}
  }

  predicate Closes(m: Record) {
    m.kind in {11, 14, 16, 21, 29, 31}
  }

  /** activate, deactivate, and the numbering turned off. */
  predicate SaysNothing(m: Record) {
    m.kind in {17, 18} || (m.kind == 26 && m.visible == Some(false))
  }

  /** A record this draws or may leave out. */
  predicate Readable(m: Record) {
    IsMessage(m) || IsNote(m) || OpensFrame(m) || Divides(m) || Closes(m) || SaysNothing(m)
  }

  /** A record that becomes a row: a message or a note between known participants, or any part
      of a frame. */
  predicate Kept(known: set<string>, m: Record) {
    if IsMessage(m) || IsNote(m) then m.from in known && m.to in known
    else OpensFrame(m) || Divides(m) || Closes(m)
  }

  /** The dashed arrows. */
  predicate IsDashed(kind: int) {
    kind in {1, 4, 6, 25, 34}
  }

  function HeadOf(kind: int): Head {
    if kind in {0, 1} then Filled
    else if kind in {3, 4} then Cross
    else if kind in {5, 6} then NoHead
    else if kind in {24, 25} then OpenHead
    else Both
  }

  /** The row says what its record says. */
  predicate RowSays(r: Row, m: Record) {
    match r
    case Message(from, to, text, line, head) =>
      IsMessage(m) && from == m.from && to == m.to && text == m.text
      && (line == Dashed <==> IsDashed(m.kind)) && head == HeadOf(m.kind)
    case Note(from, to, side, text) =>
      IsNote(m) && from == m.from && to == m.to && text == m.text
      && (side == LeftOf <==> m.placement == Some(0)) && (side == RightOf <==> m.placement == Some(1))
    case Frame(keyword, text) =>
      OpensFrame(m) && text == m.text
      && (keyword, m.kind) in {("loop", 10), ("alt", 12), ("opt", 15), ("par", 19), ("critical", 27), ("break", 30)}
    case Divider(keyword, text) =>
      Divides(m) && text == m.text && (keyword, m.kind) in {("else", 13), ("and", 20), ("option", 28)}
    case End => Closes(m)
  }

  // ---- how deep the frames are ----

  /** Frames opened less frames closed. */
  function Depth(messages: seq<Record>): int {
    if messages == [] then 0
    else
      var m := messages[|messages| - 1];
      Depth(messages[..|messages| - 1]) + (if OpensFrame(m) then 1 else 0) - (if Closes(m) then 1 else 0)
  }

  predicate AllReadable(messages: seq<Record>) {
    forall k :: 0 <= k < |messages| ==> Readable(messages[k])
  }

  predicate Shallow(messages: seq<Record>) {
    forall k :: 0 <= k <= |messages| ==> Depth(messages[..k]) <= 3
  }

  predicate PartsInside(messages: seq<Record>) {
    forall k :: 0 <= k < |messages| && (Divides(messages[k]) || Closes(messages[k])) ==> Depth(messages[..k]) > 0
  }

  /** Every record readable, frames never more than three deep, and no divider or end outside
      one. */
  predicate Drawable(messages: seq<Record>) {
    AllReadable(messages) && Shallow(messages) && PartsInside(messages)
  }

  // ---- the records read ----

  /** at names, in order, the record of each row. */
  ghost predicate RowsOf(known: set<string>, messages: seq<Record>, rows: seq<Row>, at: seq<nat>) {
    && |at| == |rows| && (forall j, k :: 0 <= j < k < |at| ==> at[j] < at[k])
    && (forall k :: 0 <= k < |at| ==> at[k] < |messages| && RowSays(rows[k], messages[at[k]]))
    && forall i :: 0 <= i < |messages| ==> (i in at <==> Kept(known, messages[i]))
  }

  lemma RecordRead(known: set<string>, r: Reading, m: Record)
    requires r.Reading?
    ensures var after := ReadRecord(known, r, m);
            && (after.Reading? <==>
                  Readable(m) && (Divides(m) || Closes(m) ==> r.depth > 0) && (OpensFrame(m) ==> r.depth < 3))
            && (after.Reading? ==>
                  && after.depth == r.depth + (if OpensFrame(m) then 1 else 0) - (if Closes(m) then 1 else 0)
                  && if Kept(known, m) then |after.rows| == |r.rows| + 1 && after.rows[..|r.rows|] == r.rows
                                            && RowSays(after.rows[|r.rows|], m)
                     else after.rows == r.rows)
  {
  }

  lemma RowsMore(known: set<string>, messages: seq<Record>, rows: seq<Row>, at: seq<nat>, m: Record, row: Row)
    requires RowsOf(known, messages, rows, at) && Kept(known, m) && RowSays(row, m)
    ensures RowsOf(known, messages + [m], rows + [row], at + [|messages|])
  {
    hide Kept, RowSays;
  }

  lemma RowsSame(known: set<string>, messages: seq<Record>, rows: seq<Row>, at: seq<nat>, m: Record)
    requires RowsOf(known, messages, rows, at) && !Kept(known, m)
    ensures RowsOf(known, messages + [m], rows, at)
  {
    hide Kept, RowSays;
    assert |messages| !in at;
  }

  lemma DrawableMore(messages: seq<Record>)
    requires messages != []
    ensures var n := |messages| - 1;
            Drawable(messages) <==>
              && Drawable(messages[..n]) && Readable(messages[n])
              && (Divides(messages[n]) || Closes(messages[n]) ==> Depth(messages[..n]) > 0)
              && (OpensFrame(messages[n]) ==> Depth(messages[..n]) < 3)
  {
    hide Readable, Divides, Closes, OpensFrame, AllReadable, Shallow, PartsInside, Depth;
    ReadableMore(messages);
    ShallowMore(messages);
    InsideMore(messages);
  }

  lemma ReadableMore(messages: seq<Record>)
    requires messages != []
    ensures var n := |messages| - 1; AllReadable(messages) <==> AllReadable(messages[..n]) && Readable(messages[n])
  {
    hide Readable;
  }

  lemma ShallowMore(messages: seq<Record>)
    requires messages != []
    ensures var n := |messages| - 1;
            Shallow(messages) <==> Shallow(messages[..n]) && (OpensFrame(messages[n]) ==> Depth(messages[..n]) < 3)
  {
    hide Closes, OpensFrame;
    var n := |messages| - 1;
    var init := messages[..n];
    assert forall k :: 0 <= k <= n ==> init[..k] == messages[..k];
    assert messages[..|messages|] == messages;
    Opposite(messages[n]);
    if Shallow(messages) {
      assert Depth(messages[..|messages|]) <= 3;
    }
    if Shallow(init) {
      assert Depth(init[..n]) <= 3;
    }
  }

  lemma InsideMore(messages: seq<Record>)
    requires messages != []
    ensures var n := |messages| - 1;
            PartsInside(messages) <==>
              PartsInside(messages[..n]) && (Divides(messages[n]) || Closes(messages[n]) ==> Depth(messages[..n]) > 0)
  {
    hide Divides, Closes, Depth;
    var n := |messages| - 1;
    var init := messages[..n];
    assert forall k :: 0 <= k <= n ==> init[..k] == messages[..k];
  }

  lemma Opposite(m: Record)
    ensures !(OpensFrame(m) && Closes(m))
  {
  }

  /** The records are read exactly when they may all be drawn, the depth then being theirs. */
  lemma {:induction false} RecordsRead(known: set<string>, messages: seq<Record>) returns (at: seq<nat>)
    ensures ReadAll(known, messages).Reading? <==> Drawable(messages)
    ensures ReadAll(known, messages).Reading? ==>
              && ReadAll(known, messages).depth == Depth(messages)
              && RowsOf(known, messages, ReadAll(known, messages).rows, at)
  {
    hide ReadRecord, Kept, RowSays, Drawable, RowsOf, Readable, Divides, Closes, OpensFrame;
    at := [];
    if messages == [] {
      NoneRead(known);
    } else {
      var n := |messages| - 1;
      var init, m := messages[..n], messages[n];
      at := RecordsRead(known, init);
      DrawableMore(messages);
      var r := ReadAll(known, init);
      if r.Reading? {
        RecordRead(known, r, m);
        var after := ReadRecord(known, r, m);
        if after.Reading? {
          assert messages == init + [m];
          if Kept(known, m) {
            assert after.rows == r.rows + [after.rows[|r.rows|]];
            RowsMore(known, init, r.rows, at, m, after.rows[|r.rows|]);
            at := at + [n];
          } else {
            RowsSame(known, init, r.rows, at, m);
          }
        }
      } else {
        StillRefused(known, r, m);
      }
    }
  }

  lemma StillRefused(known: set<string>, r: Reading, m: Record)
    requires r.Refused?
    ensures ReadRecord(known, r, m).Refused?
  {
  }

  lemma NoneRead(known: set<string>)
    ensures ReadAll(known, []) == Reading(0, []) && Drawable([]) && Depth([]) == 0 && RowsOf(known, [], [], [])
  {
  }

  // ---- the participants read ----

  /** at names, in order, the participants with an id; each is labelled by its name, or by its id
      when it has none. */
  ghost predicate ActorsOf(named: seq<Actor>, actors: seq<Actor>, at: seq<nat>) {
    && |at| == |actors| && (forall j, k :: 0 <= j < k < |at| ==> at[j] < at[k])
    && (forall k :: 0 <= k < |at| ==>
          at[k] < |named| && ActorSays(actors[k], named[at[k]]))
    && forall i :: 0 <= i < |named| ==> (i in at <==> named[i].id != "")
  }

  predicate ActorSays(a: Actor, n: Actor) {
    a.id == n.id && a.text == if n.text != "" then n.text else n.id
  }

  function Shifted(at: seq<nat>): (r: seq<nat>)
    ensures |r| == |at| && forall k :: 0 <= k < |at| ==> r[k] == at[k] + 1
  {
    seq(|at|, k requires 0 <= k < |at| => at[k] + 1)
  }

  lemma ActorKept(named: seq<Actor>, actors: seq<Actor>, rest: seq<nat>, a: Actor, b: Actor)
    requires ActorsOf(named, actors, rest) && a.id != "" && ActorSays(b, a)
    ensures ActorsOf([a] + named, [b] + actors, [0] + Shifted(rest))
  {
    hide ActorSays, Shifted;
    var all, at, both := [a] + named, [0] + Shifted(rest), [b] + actors;
    forall k | 0 <= k < |at| ensures at[k] < |all| && ActorSays(both[k], all[at[k]]) {
      if k > 0 {
        assert at[k] == rest[k - 1] + 1 && all[at[k]] == named[rest[k - 1]];
      }
    }
    ActorsAmong(named, actors, rest, a);
    ShiftedAscends(rest);
  }

  lemma ActorsAmong(named: seq<Actor>, actors: seq<Actor>, rest: seq<nat>, a: Actor)
    requires ActorsOf(named, actors, rest) && a.id != ""
    ensures var all := [a] + named; forall i :: 0 <= i < |all| ==> (i in [0] + Shifted(rest) <==> all[i].id != "")
  {
    hide ActorSays, Shifted;
    var all := [a] + named;
    forall i | 0 <= i < |all| ensures i in [0] + Shifted(rest) <==> all[i].id != "" {
      if i > 0 {
        InShifted([0], rest, i);
      } else {
        assert ([0] + Shifted(rest))[0] == 0;
      }
    }
  }

  lemma ShiftedAscends(rest: seq<nat>)
    requires forall j, k :: 0 <= j < k < |rest| ==> rest[j] < rest[k]
    ensures var at := [0] + Shifted(rest); forall j, k :: 0 <= j < k < |at| ==> at[j] < at[k]
    ensures forall j, k :: 0 <= j < k < |Shifted(rest)| ==> Shifted(rest)[j] < Shifted(rest)[k]
  {
    var at := [0] + Shifted(rest);
    assert forall k :: 0 < k < |at| ==> at[k] == rest[k - 1] + 1;
  }

  lemma ActorDropped(named: seq<Actor>, actors: seq<Actor>, rest: seq<nat>, a: Actor)
    requires ActorsOf(named, actors, rest) && a.id == ""
    ensures ActorsOf([a] + named, actors, Shifted(rest))
  {
    hide ActorSays;
    var all, at := [a] + named, Shifted(rest);
    forall k | 0 <= k < |at| ensures at[k] < |all| && ActorSays(actors[k], all[at[k]]) {
      assert all[at[k]] == named[rest[k]];
    }
    forall i | 0 <= i < |all| ensures i in at <==> all[i].id != "" {
      if i > 0 {
        InShifted([], rest, i);
        assert [] + at == at;
      }
    }
    ShiftedAscends(rest);
  }

  lemma InShifted(first: seq<nat>, rest: seq<nat>, i: nat)
    requires i > 0 && first in {[], [0]}
    ensures i in first + Shifted(rest) <==> i - 1 in rest
  {
    if i - 1 in rest {
      var k :| 0 <= k < |rest| && rest[k] == i - 1;
      assert Shifted(rest)[k] == i;
    }
  }

  lemma {:induction false} ActorsRead(named: seq<Actor>) returns (at: seq<nat>)
    ensures ActorsOf(named, NamedActors(named), at)
  {
    at := [];
    if named != [] {
      hide ActorsOf;
      var a := named[0];
      var rest := ActorsRead(named[1..]);
      assert named == [a] + named[1..];
      if a.id != "" {
        at := [0] + Shifted(rest);
        ActorKept(named[1..], NamedActors(named[1..]), rest, a,
                  Actor(a.id, if a.text != "" then a.text else a.id));
      } else {
        at := Shifted(rest);
        ActorDropped(named[1..], NamedActors(named[1..]), rest, a);
      }
    }
  }

  // ---- the diagram read ----

  /** A diagram this draws: no title, no groups, no participant arriving or leaving, someone in
      it, records that may all be drawn and every frame closed. */
  predicate Taken(db: Db) {
    && db.title == "" && db.boxes == 0 && db.created == 0 && db.destroyed == 0
    && (exists i :: 0 <= i < |db.actors| && db.actors[i].id != "")
    && Drawable(db.messages) && Depth(db.messages) == 0
  }

  lemma SomeActor(db: Db)
    ensures NamedActors(db.actors) != [] <==> exists i :: 0 <= i < |db.actors| && db.actors[i].id != ""
  {
    var at := ActorsRead(db.actors);
    if NamedActors(db.actors) != [] {
      assert at[0] in at && db.actors[at[0]].id != "";
    }
  }

  /** The reader takes exactly the diagrams this draws, and what it reads is theirs: each
      participant with an id, labelled by its name; and in the order written a row for every
      message and note between known participants and every part of a frame, saying what its
      record says. */
  lemma ReadExactly(db: Db) returns (actors: seq<nat>, rows: seq<nat>)
    ensures Read(db).Some? <==> Taken(db)
    ensures Read(db).Some? ==>
              && ActorsOf(db.actors, Read(db).value.actors, actors)
              && RowsOf(Ids(Read(db).value.actors), db.messages, Read(db).value.rows, rows)
  {
    hide ActorsOf, RowsOf, Drawable, ReadAll, NamedActors;
    SomeActor(db);
    actors := ActorsRead(db.actors);
    rows := RecordsRead(Ids(NamedActors(db.actors)), db.messages);
  }
}
