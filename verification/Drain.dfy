// The answer's event stream, read as it arrives (drain and the reading loop of stream,
// ui/src/Ask.tsx): the event and data fields of section 9.2 of the WHATWG HTML standard.
module Drain {
  import opened Text

  datatype Event = Event(name: string, data: string)

  datatype Read = Read(events: seq<Event>, rest: string)

  const BREAK := "\n\n"

  predicate BreakAt(s: string, i: int) {
    0 <= i && i + 2 <= |s| && s[i] == '\n' && s[i + 1] == '\n'
  }

  /** Where the first blank line starts, or the end. */
  function FirstBreak(s: string): (i: nat)
    ensures i <= |s| && (i < |s| ==> BreakAt(s, i))
    ensures forall j :: 0 <= j < i ==> !BreakAt(s, j)
  {
    if s == "" then 0
    else if BreakAt(s, 0) then 0
    else
      var i := FirstBreak(s[1..]);
      assert forall j :: 1 <= j <= |s| ==> BreakAt(s, j) == BreakAt(s[1..], j - 1);
      1 + i
  }

  /** The text between blank lines, from the left; never empty. */
  function Blocks(s: string): (blocks: seq<string>)
    ensures blocks != []
  {
    var i := FirstBreak(s);
    if i < |s| then [s[..i]] + Blocks(s[i + 2..]) else [s]
  }

  predicate StartsWith(s: string, prefix: string) {
    |prefix| <= |s| && s[..|prefix|] == prefix
  }

  function ReadLine(e: Event, line: string): Event {
    if StartsWith(line, "event: ") then e.(name := line[7..])
    else if StartsWith(line, "data: ") then e.(data := line[6..])
    else e
  }

  function ReadLines(lines: seq<string>): Event {
    if lines == [] then Event("", "") else ReadLine(ReadLines(lines[..|lines| - 1]), lines[|lines| - 1])
  }

  /** What a block emits: its event, if it has a name. */
  function Emitted(block: string): seq<Event> {
    var e := ReadLines(Split(block, '\n'));
    if e.name != "" then [e] else []
  }

  function EmittedAll(blocks: seq<string>): seq<Event> {
    if blocks == [] then [] else EmittedAll(blocks[..|blocks| - 1]) + Emitted(blocks[|blocks| - 1])
  }

  /** A whole text read at once. */
  function Drained(buffer: string): Read {
    var blocks := Blocks(buffer);
    var n := |blocks| - 1;
    Read(EmittedAll(blocks[..n]), blocks[n])
  }

  method DrainBuffer(buffer: string) returns (read: Read)
    ensures read == Drained(buffer)
  {
    var blocks := Blocks(buffer);
    var rest := blocks[|blocks| - 1];
    blocks := blocks[..|blocks| - 1];
    var events := [];
    for b := 0 to |blocks|
      invariant events == EmittedAll(blocks[..b])
    {
      var name, data := "", "";
      var lines := Split(blocks[b], '\n');
      for i := 0 to |lines|
        invariant Event(name, data) == ReadLines(lines[..i])
      {
        assert lines[..i + 1][..i] == lines[..i];
        if StartsWith(lines[i], "event: ") {
          name := lines[i][7..];
        } else if StartsWith(lines[i], "data: ") {
          data := lines[i][6..];
        }
      }
      assert lines[..|lines|] == lines;
      assert blocks[..b + 1][..b] == blocks[..b];
      if name != "" {
        events := events + [Event(name, data)];
      }
    }
    assert blocks[..|blocks|] == blocks;
    return Read(events, rest);
  }

  // ---- chunks ----

  function Concat(chunks: seq<string>): string {
    if chunks == [] then "" else Concat(chunks[..|chunks| - 1]) + chunks[|chunks| - 1]
  }

  /** The reading loop: each chunk added to what was kept, and drained. */
  method ReadChunks(chunks: seq<string>) returns (read: Read)
    ensures read == Drained(Concat(chunks))
  {
    var buffer, events: seq<Event> := "", [];
    assert Drained("") == Read([], "");
    for k := 0 to |chunks|
      invariant Read(events, buffer) == Drained(Concat(chunks[..k]))
    {
      assert chunks[..k + 1][..k] == chunks[..k];
      DrainedMore(Concat(chunks[..k]), chunks[k]);
      buffer := buffer + chunks[k];
      var more := DrainBuffer(buffer);
      events, buffer := events + more.events, more.rest;
    }
    assert chunks[..|chunks|] == chunks;
    return Read(events, buffer);
  }

  lemma BlocksAre(s: string)
    ensures var i := FirstBreak(s); Blocks(s) == if i < |s| then [s[..i]] + Blocks(s[i + 2..]) else [s]
  {
    hide FirstBreak;
  }

  /** The blocks of a text cut anywhere: those before the cut, then those of what the
      cut left over and what follows. */
  lemma {:induction false} BlocksSplit(a: string, b: string)
    ensures var done := Blocks(a); var n := |done| - 1; Blocks(a + b) == done[..n] + Blocks(done[n] + b)
    decreases |a|
  {
    hide FirstBreak, Blocks;
    var i := FirstBreak(a);
    BlocksAre(a);
    if i < |a| {
      BreaksStay(a, b);
      BlocksAre(a + b);
      BlocksSplit(a[i + 2..], b);
      var rest := Blocks(a[i + 2..]);
      assert (a + b)[i + 2..] == a[i + 2..] + b;
      assert (a + b)[..i] == a[..i];
      assert Blocks(a)[..|rest|] == [a[..i]] + rest[..|rest| - 1];
    }
  }

  lemma BreaksStay(a: string, b: string)
    requires FirstBreak(a) < |a|
    ensures FirstBreak(a + b) == FirstBreak(a)
  {
    var i, j := FirstBreak(a), FirstBreak(a + b);
    assert BreakAt(a + b, i);
    assert forall k :: 0 <= k < i ==> BreakAt(a + b, k) == BreakAt(a, k) == false;
    assert j == |a + b| || BreakAt(a + b, j);
  }

  lemma {:induction false} EmittedConcat(a: seq<string>, b: seq<string>)
    ensures EmittedAll(a + b) == EmittedAll(a) + EmittedAll(b)
  {
    if b == [] {
      assert a + b == a;
    } else {
      var n := |b| - 1;
      assert (a + b)[..|a + b| - 1] == a + b[..n];
      EmittedConcat(a, b[..n]);
    }
  }

  /** Draining a text, then what it left and the next chunk, is draining both at once. */
  lemma DrainedMore(a: string, b: string)
    ensures Drained(a + b)
            == Read(Drained(a).events + Drained(Drained(a).rest + b).events, Drained(Drained(a).rest + b).rest)
  {
    hide Blocks, EmittedAll;
    var done := Blocks(a);
    var n := |done| - 1;
    var more := Blocks(done[n] + b);
    BlocksSplit(a, b);
    assert (done[..n] + more)[..n + |more| - 1] == done[..n] + more[..|more| - 1];
    EmittedConcat(done[..n], more[..|more| - 1]);
  }

  // ---- what the server frames ----

  /** An event as it is framed on the wire. */
  function Frame(e: Event): string {
    "event: " + e.name + "\ndata: " + e.data + BREAK
  }

  function Framed(events: seq<Event>): string {
    if events == [] then "" else Frame(events[0]) + Framed(events[1..])
  }

  /** A name, and no line end inside either field. */
  predicate Sendable(e: Event) {
    e.name != "" && '\n' !in e.name && '\n' !in e.data
  }

  /** The two lines of a frame. */
  function Lines(e: Event): seq<string> {
    ["event: " + e.name, "data: " + e.data]
  }

  lemma LinesJoined(e: Event)
    ensures Join(Lines(e), ['\n']) == Lines(e)[0] + ['\n'] + Lines(e)[1]
  {
    assert Lines(e)[1..] == [Lines(e)[1]];
    assert Join(Lines(e)[1..], ['\n']) == Lines(e)[1];
  }

  lemma FrameIsLines(e: Event)
    ensures Frame(e) == Join(Lines(e), ['\n']) + BREAK
  {
    LinesJoined(e);
    assert "\ndata: " == ['\n'] + "data: ";
  }

  lemma FrameEmits(e: Event)
    requires Sendable(e)
    ensures Emitted(Join(Lines(e), ['\n'])) == [e]
  {
    var lines := Lines(e);
    SplitJoin(lines, '\n');
    assert lines[..1] == [lines[0]] && lines[..1][..0] == [];
    assert ReadLines(lines[..1]) == Event(e.name, "");
    assert StartsWith(lines[1], "data: ") && !StartsWith(lines[1], "event: ");
    assert ReadLines(lines) == e;
  }

  /** No blank line inside two lines that are not empty. */
  lemma FrameUnbroken(e: Event, after: string)
    requires Sendable(e)
    ensures FirstBreak(Join(Lines(e), ['\n']) + BREAK + after) == |Join(Lines(e), ['\n'])|
  {
    var body, a, b := Join(Lines(e), ['\n']), Lines(e)[0], Lines(e)[1];
    LinesJoined(e);
    assert '\n' !in a && '\n' !in b;
    var s := body + BREAK + after;
    assert BreakAt(s, |body|);
    forall i | 0 <= i < |body| ensures !BreakAt(s, i) {
      assert s[i] == body[i];
      if i == |a| {
        assert s[i + 1] == b[0];
      }
    }
    assert FirstBreak(s) == |s| || BreakAt(s, FirstBreak(s));
  }

  /** What the server frames is what the page reads, with nothing left over. */
  lemma {:induction false} FramedDrained(events: seq<Event>)
    requires forall e <- events :: Sendable(e)
    ensures Drained(Framed(events)) == Read(events, "")
  {
    if events == [] {
      assert Blocks("") == [""];
    } else {
      var e, rest := events[0], events[1..];
      FramedDrained(rest);
      var body := Join(Lines(e), ['\n']);
      FrameIsLines(e);
      FrameUnbroken(e, Framed(rest));
      FrameEmits(e);
      FrameFirst(body, Framed(rest), e);
      assert Framed(events) == body + BREAK + Framed(rest);
    }
  }

  lemma FrameFirst(body: string, after: string, e: Event)
    requires FirstBreak(body + BREAK + after) == |body| && Emitted(body) == [e]
    ensures Drained(body + BREAK + after) == Read([e] + Drained(after).events, Drained(after).rest)
  {
    hide Emitted, FirstBreak, Blocks, EmittedAll;
    var s, more := body + BREAK + after, Blocks(after);
    BlocksFirst(body, after);
    assert Blocks(s)[..|more|] == [body] + more[..|more| - 1];
    EmittedConcat([body], more[..|more| - 1]);
    EmittedOne(body);
  }

  lemma BlocksFirst(body: string, after: string)
    requires FirstBreak(body + BREAK + after) == |body|
    ensures Blocks(body + BREAK + after) == [body] + Blocks(after)
  {
    var s := body + BREAK + after;
    assert s[|body| + 2..] == after && s[..|body|] == body;
  }

  lemma EmittedOne(body: string)
    ensures EmittedAll([body]) == Emitted(body)
  {
    hide Emitted;
    assert [body][..0] == [];
    assert EmittedAll([]) == [];
  }

  // ---- what any text says ----

  /** The last line that starts so, or -1. */
  function LastWith(lines: seq<string>, prefix: string): (k: int)
    ensures -1 <= k < |lines| && (k >= 0 ==> StartsWith(lines[k], prefix))
    ensures forall j :: k < j < |lines| ==> !StartsWith(lines[j], prefix)
  {
    if lines == [] then -1
    else if StartsWith(lines[|lines| - 1], prefix) then |lines| - 1
    else LastWith(lines[..|lines| - 1], prefix)
  }

  /** What the last such line says, nothing where there is none. */
  function SaidLast(lines: seq<string>, prefix: string): string {
    var k := LastWith(lines, prefix);
    if k >= 0 then lines[k][|prefix|..] else ""
  }

  lemma {:induction false} LinesSay(lines: seq<string>)
    ensures ReadLines(lines) == Event(SaidLast(lines, "event: "), SaidLast(lines, "data: "))
  {
    if lines != [] {
      var n := |lines| - 1;
      LinesSay(lines[..n]);
      assert StartsWith(lines[n], "event: ") ==> lines[n][0] == 'e' && !StartsWith(lines[n], "data: ");
    }
  }

  lemma {:induction false} BlocksJoined(s: string)
    ensures Join(Blocks(s), BREAK) == s
    ensures forall k :: 0 <= k < |Blocks(s)| ==> forall i :: !BreakAt(Blocks(s)[k], i)
  {
    hide FirstBreak;
    var i := FirstBreak(s);
    BlocksAre(s);
    if i < |s| {
      var first, rest := s[..i], Blocks(s[i + 2..]);
      BlocksJoined(s[i + 2..]);
      assert s == first + BREAK + s[i + 2..];
      assert Blocks(s)[1..] == rest;
      forall j ensures !BreakAt(first, j) {
        if 0 <= j < i - 1 {
          assert !BreakAt(s, j) && first[j] == s[j] && first[j + 1] == s[j + 1];
        }
      }
    }
  }

  lemma {:induction false} EmittedIn(blocks: seq<string>) returns (at: seq<nat>)
    ensures |at| == |EmittedAll(blocks)| && (forall j, k :: 0 <= j < k < |at| ==> at[j] < at[k])
    ensures forall k :: 0 <= k < |at| ==> at[k] < |blocks| && Emitted(blocks[at[k]]) == [EmittedAll(blocks)[k]]
    ensures forall b :: 0 <= b < |blocks| ==> (b in at <==> Emitted(blocks[b]) != [])
  {
    hide Emitted;
    at := [];
    if blocks != [] {
      var n := |blocks| - 1;
      at := EmittedIn(blocks[..n]);
      assert n !in at;
      OneAtMost(blocks[n]);
      if Emitted(blocks[n]) != [] {
        at := at + [n];
      }
    }
  }

  lemma OneAtMost(block: string)
    ensures |Emitted(block)| <= 1
  {
    hide ReadLines, Split;
  }

  /** A block's name and data: its last lines that give one. */
  predicate BlockSays(block: string, e: Event) {
    && e.name == SaidLast(Split(block, '\n'), "event: ")
    && e.data == SaidLast(Split(block, '\n'), "data: ")
  }

  lemma EmittedSays(block: string)
    ensures Emitted(block) != [] <==> SaidLast(Split(block, '\n'), "event: ") != ""
    ensures Emitted(block) != [] ==> |Emitted(block)| == 1 && BlockSays(block, Emitted(block)[0])
  {
    LinesSay(Split(block, '\n'));
    hide ReadLines, Split, SaidLast;
  }

  /** Any text is its blocks with blank lines between, none inside one; the events read are those
      of the blocks that give a name, but for the last block, which is kept; each says what its
      block's last lines do. */
  lemma DrainedSays(buffer: string) returns (blocks: seq<string>, at: seq<nat>)
    ensures blocks != [] && Join(blocks, BREAK) == buffer && Drained(buffer).rest == blocks[|blocks| - 1]
    ensures forall b :: 0 <= b < |blocks| ==> forall i :: !BreakAt(blocks[b], i)
    ensures |at| == |Drained(buffer).events| && (forall j, k :: 0 <= j < k < |at| ==> at[j] < at[k])
    ensures forall k :: 0 <= k < |at| ==>
              at[k] < |blocks| - 1 && BlockSays(blocks[at[k]], Drained(buffer).events[k])
    ensures forall b :: 0 <= b < |blocks| - 1 ==>
              (b in at <==> SaidLast(Split(blocks[b], '\n'), "event: ") != "")
  {
    hide Emitted, EmittedAll, Blocks, Split, SaidLast, BlockSays;
    blocks := Blocks(buffer);
    BlocksJoined(buffer);
    var before := blocks[..|blocks| - 1];
    at := EmittedIn(before);
    forall b | 0 <= b < |before|
      ensures Emitted(before[b]) != [] <==> SaidLast(Split(before[b], '\n'), "event: ") != ""
      ensures Emitted(before[b]) != [] ==> |Emitted(before[b])| == 1 && BlockSays(before[b], Emitted(before[b])[0])
    {
      EmittedSays(before[b]);
    }
  }
}
