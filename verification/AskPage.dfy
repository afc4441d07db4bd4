// The ask page: one turn keeps being written while the reader opens other threads and
// loads come back late (ui/src/Ask.tsx). What a step does to the page is a function of
// its state; the page itself is a class that updates its refs as the source does.
module AskPage {
  import opened Geometry
  import opened Turns

  /** What the server says to a thread's address. */
  datatype Reply = Missing | NotNow | Unreadable | Record(turns: seq<Turn>)

  /** How the answer's stream stops: at its end, cut, or refused before it starts. */
  datatype Stop = Over | Cut | Refused(message: string)

  /** The card a question answers: which turn, and the choice marked on it. */
  datatype Card = Card(turn: nat, choice: int)

  datatype Action =
    | Open(thread: Option<string>)
    | Landed(load: nat, reply: Reply)
    | Asked(turn: Turn, request: string, card: Option<Card>)
    | Arrived(e: Event, now: int)
    | Stopped(how: Stop, now: int)

  /** What the running stream keeps of its own: whether its turn was ended, whether it
      went well, the card it answers and the thread that was in. */
  datatype Streaming = Streaming(closed: bool, ok: bool, card: Option<Card>, thread: Option<string>)

  /** The page's refs and what it shows. loads are the thread loads in the air, by
      their number; filed is where each question asked was sent. */
  datatype State = State(
    shown: Option<string>, threadId: Option<string>,
    liveThread: Option<string>, liveTurns: Option<seq<Turn>>,
    loadSeq: nat, loads: map<nat, string>, loading: bool,
    turns: seq<Turn>, busy: bool, gone: bool,
    run: Streaming, filed: seq<Option<string>>)

  const START := State(None, None, None, None, 0, map[], false, [], false, false, Streaming(false, true, None, None),
                       [])

  const LOST := "The connection was lost."

  // ---- what the stream writes ----

  /** What one thing the stream does changes in the turn being written. */
  datatype Patch = Keep(request: string) | Fail(message: string, at: int) | Apply(e: Event, at: int)

  function Patched(t: Turn, p: Patch): Option<Turn> {
    match p
    case Keep(request) => Some(t.(retry := Some(request)))
    case Fail(message, at) => Some(t.(error := message, done := true, endedAt := Some(at)))
    case Apply(e, at) => Changed(t, e, at)
  }

  /** The turn after some patches. */
  function Written(t: Turn, patches: seq<Patch>): Turn {
    if patches == [] then t
    else
      var before := Written(t, patches[..|patches| - 1]);
      Else(Patched(before, patches[|patches| - 1]), before)
  }

  function WithLast(turns: seq<Turn>, t: Turn): (r: seq<Turn>)
    requires turns != []
    ensures |r| == |turns| && r[|r| - 1] == t && r[..|r| - 1] == turns[..|turns| - 1]
  {
    turns[..|turns| - 1] + [t]
  }

  /** patchLast: the parked turn, and the screen when it shows that thread. */
  function PatchLast(s: State, p: Patch): State {
    if s.liveTurns.None? || s.liveTurns.value == [] then s
    else
      var parked := s.liveTurns.value;
      var patched := Patched(parked[|parked| - 1], p);
      if patched.None? then s
      else
        var next := WithLast(parked, patched.value);
        s.(liveTurns := Some(next), turns := if s.shown == s.liveThread then next else s.turns)
  }

  // ---- what a step does ----

  function Marked(turns: seq<Turn>, i: nat, choice: Option<int>): (r: seq<Turn>)
    ensures |r| == |turns| && forall k :: 0 <= k < |turns| ==>
              r[k] == if k == i then turns[k].(chosenIdx := choice) else turns[k]
  {
    if i < |turns| then turns[i := turns[i].(chosenIdx := choice)] else turns
  }

  /** The reader goes to an address. */
  function Opened(s: State, thread: Option<string>): State {
    var t := s.(gone := false);
    if thread == s.shown then t
    else
      var seq1 := s.loadSeq + 1;
      var u := t.(loadSeq := seq1, shown := thread, threadId := thread);
      if thread.Some? && thread == s.liveThread && s.liveTurns.Some? then
        u.(turns := s.liveTurns.value, loading := false)
      else if thread.None? then u.(turns := [], loading := false)
      else u.(turns := [], loading := true, loads := s.loads[seq1 := thread.value])
  }

  /** A load comes back: only the current one lands. */
  function Lands(s: State, load: nat, reply: Reply): State {
    var t := s.(loads := s.loads - {load});
    if load != s.loadSeq then t
    else
      match reply
      case Missing => t.(turns := [], loading := false, gone := true, threadId := None, shown := None)
      case NotNow => t.(turns := [], loading := false)
      case Unreadable => t.(turns := [], loading := false)
      case Record(turns) =>
        if turns == [] then t.(turns := [], loading := false, gone := true, threadId := None, shown := None)
        else t.(turns := turns, loading := false)
  }

  /** A card may be answered once. */
  predicate CardOpen(turns: seq<Turn>, card: Option<Card>) {
    card.None?
    || (card.value.turn < |turns| && turns[card.value.turn].clarification.Some?
        && turns[card.value.turn].chosenIdx.None?)
  }

  /** The turns a question is asked after. */
  function ListFor(turns: seq<Turn>, card: Option<Card>): seq<Turn> {
    if card.Some? then Marked(turns, card.value.turn, Some(card.value.choice)) else turns
  }

  /** A turn appended and parked. */
  function Begun(s: State, turn: Turn, card: Option<Card>): State {
    var next := ListFor(s.turns, card) + [turn];
    s.(loadSeq := s.loadSeq + 1, loading := false, turns := next, liveTurns := Some(next), liveThread := s.threadId,
       busy := true, run := Streaming(false, true, card, s.threadId), filed := s.filed + [s.threadId])
  }

  /** A question asked, a card answered, an answer asked again: a load in the air is
      retired, the turn appended and parked, its stream begun. */
  function Asks(s: State, turn: Turn, request: string, card: Option<Card>): State {
    if s.busy || !CardOpen(s.turns, card) then s
    else
      if card.None? then PatchLast(Begun(s, turn, card), Keep(request)) else Begun(s, turn, card)
  }

  /** What an event of the stream does to the page around the turn. */
  function Around(s: State, e: Event): State {
    var t := s.(run := s.run.(ok := s.run.ok && !e.Failed?, closed := s.run.closed || EndsTurn(e)));
    if !e.Thread? then t
    else if s.shown.None? then t.(liveThread := Some(e.id), threadId := Some(e.id), shown := Some(e.id), gone := false)
    else t.(liveThread := Some(e.id))
  }

  /** An event of the stream: what it does to the page, then to the turn. */
  function Arrives(s: State, e: Event, now: int): State {
    PatchLast(Around(s, e), Apply(e, now))
  }

  function Failing(s: State, message: string, now: int): State {
    PatchLast(s.(run := s.run.(ok := false)), Fail(message, now))
  }

  /** The parked copy dropped, and a card whose turn failed open again. */
  function Dropped(s: State): State {
    var t := s.(liveTurns := None, liveThread := None, busy := false);
    if s.run.card.Some? && !s.run.ok && s.shown == s.run.thread then
      t.(turns := Marked(s.turns, s.run.card.value.turn, None))
    else t
  }

  /** The stream stops: a turn that was not ended fails, and what was parked goes. */
  function Stops(s: State, how: Stop, now: int): State {
    if how.Over? && s.run.closed then Dropped(s)
    else Dropped(Failing(s, if how.Refused? then how.message else LOST, now))
  }

  function Next(s: State, a: Action): State {
    match a
    case Open(thread) => Opened(s, thread)
    case Landed(load, reply) => Lands(s, load, reply)
    case Asked(turn, request, card) => Asks(s, turn, request, card)
    case Arrived(e, now) => Arrives(s, e, now)
    case Stopped(how, now) => Stops(s, how, now)
  }

  /** What may happen: only a load in the air comes back, only a running turn's stream
      speaks, and a thread event names the thread asked in, or a new one no load of
      which is awaited. */
  predicate May(s: State, a: Action) {
    match a
    case Open(_) => true
    case Landed(load, _) => load in s.loads
    case Asked(_, _, _) => true
    case Arrived(e, _) => s.busy && (e.Thread? ==>
                                     if s.liveThread.Some? then s.liveThread.value == e.id else !Awaited(s, e.id))
    case Stopped(_, _) => s.busy
  }

  /** The record of this thread is still to land on screen. */
  predicate Awaited(s: State, id: string) {
    s.loadSeq in s.loads && s.loads[s.loadSeq] == id
  }

  function Run(actions: seq<Action>): State {
    if actions == [] then START else Next(Run(actions[..|actions| - 1]), actions[|actions| - 1])
  }

  predicate MayRun(actions: seq<Action>) {
    forall k :: 0 <= k < |actions| ==> May(Run(actions[..k]), actions[k])
  }

  // ---- the page itself ----

  class Page {
    var shown: Option<string>
    var threadId: Option<string>
    var liveThread: Option<string>
    var liveTurns: Option<seq<Turn>>
    var loadSeq: nat
    var loads: map<nat, string>
    var loading: bool
    var turns: seq<Turn>
    var busy: bool
    var gone: bool
    var run: Streaming
    var filed: seq<Option<string>>

    function Now(): State
      reads this
    {
      State(shown, threadId, liveThread, liveTurns, loadSeq, loads, loading, turns, busy, gone, run, filed)
    }

    constructor ()
      ensures Now() == START
    {
      shown, threadId, liveThread, liveTurns := None, None, None, None;
      loadSeq, loads, loading := 0, map[], false;
      turns, busy, gone, run, filed := [], false, false, Streaming(false, true, None, None), [];
    }

    method PatchLastTurn(p: Patch)
      modifies this
      ensures Now() == PatchLast(old(Now()), p)
    {
      if liveTurns.None? || liveTurns.value == [] {
        return;
      }
      var parked := liveTurns.value;
      var patched := Patched(parked[|parked| - 1], p);
      if patched.None? {
        return;
      }
      var next := WithLast(parked, patched.value);
      liveTurns := Some(next);
      if shown == liveThread {
        turns := next;
      }
    }

    method OpenThread(thread: Option<string>)
      modifies this
      ensures Now() == Opened(old(Now()), thread)
    {
      gone := false;
      if thread == shown {
        return;
      }
      loadSeq := loadSeq + 1;
      shown, threadId := thread, thread;
      if thread.Some? && thread == liveThread && liveTurns.Some? {
        turns := liveTurns.value;
        loading := false;
        return;
      }
      turns := [];
      if thread.None? {
        loading := false;
        return;
      }
      loading := true;
      loads := loads[loadSeq := thread.value];
    }

    method LoadLands(load: nat, reply: Reply)
      modifies this
      ensures Now() == Lands(old(Now()), load, reply)
    {
      loads := loads - {load};
      if load != loadSeq {
        return;
      }
      turns, loading := if reply.Record? then reply.turns else [], false;
      if reply.Missing? || (reply.Record? && reply.turns == []) {
        gone := true;
        threadId, shown := None, None;
      }
    }

    method Begin(turn: Turn, answers: Option<Card>)
      modifies this
      ensures Now() == Begun(old(Now()), turn, answers)
    {
      hide ListFor;
      loadSeq, loading := loadSeq + 1, false;
      var next := ListFor(turns, answers) + [turn];
      turns, liveTurns, liveThread := next, Some(next), threadId;
      busy, run, filed := true, Streaming(false, true, answers, threadId), filed + [threadId];
    }

    method Ask(turn: Turn, request: string, answers: Option<Card>)
      modifies this
      ensures Now() == Asks(old(Now()), turn, request, answers)
    {
      hide PatchLast, Begun, CardOpen;
      if busy || !CardOpen(turns, answers) {
        return;
      }
      Begin(turn, answers);
      if answers.None? {
        PatchLastTurn(Keep(request));
      }
    }

    method EventArrives(e: Event, now: int)
      modifies this
      ensures Now() == Arrives(old(Now()), e, now)
    {
      if e.Thread? {
        liveThread := Some(e.id);
        if shown.None? {
          threadId := Some(e.id);
          shown := Some(e.id);
          gone := false;
        }
      }
      if e.Failed? {
        run := run.(ok := false);
      }
      if EndsTurn(e) {
        run := run.(closed := true);
      }
      PatchLastTurn(Apply(e, now));
    }

    method FailTurn(message: string, now: int)
      modifies this
      ensures Now() == Failing(old(Now()), message, now)
    {
      hide PatchLast;
      run := run.(ok := false);
      PatchLastTurn(Fail(message, now));
    }

    method Drop()
      modifies this
      ensures Now() == Dropped(old(Now()))
    {
      liveTurns, liveThread, busy := None, None, false;
      if run.card.Some? && !run.ok && shown == run.thread {
        turns := Marked(turns, run.card.value.turn, None);
      }
    }

    method StreamStops(how: Stop, now: int)
      modifies this
      ensures Now() == Stops(old(Now()), how, now)
    {
      hide Failing, Dropped;
      if how.Refused? || how.Cut? || !run.closed {
        FailTurn(if how.Refused? then how.message else LOST, now);
      }
      Drop();
    }
  }
}
