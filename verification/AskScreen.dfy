// Which thread the ask page shows after any run, when it says a thread is gone, and what a
// load and the end of a stream leave on screen (ui/src/Ask.tsx).
module AskScreen {
  import opened Geometry
  import opened Turns
  import opened AskPage
  import opened AskRuns
  import opened TurnWriting

  // ---- which thread is shown ----

  /** The server says no such thread, or one with nothing in it for this reader. */
  predicate NoThread(reply: Reply) {
    reply.Missing? || (reply.Record? && reply.turns == [])
  }

  /** The k-th action moves the screen: the reader goes to an address, the load the screen
      waits for finds no thread, or the first question's thread becomes known while nothing
      is shown. */
  predicate Moves(actions: seq<Action>, k: nat)
    requires k < |actions|
  {
    var a := actions[k];
    || a.Open?
    || Refuses(actions, k)
    || (a.Arrived? && a.e.Thread? && Run(actions[..k]).shown.None?)
  }

  predicate Refuses(actions: seq<Action>, k: nat)
    requires k < |actions|
  {
    var a := actions[k];
    a.Landed? && a.load == Run(actions[..k]).loadSeq && NoThread(a.reply)
  }

  /** Where it moves to. */
  function MovedTo(a: Action): Option<string> {
    match a
    case Open(thread) => thread
    case Arrived(e, _) => if e.Thread? then Some(e.id) else None
    case _ => None
  }

  /** The latest action that moved the screen, or -1. */
  function LastMove(actions: seq<Action>): (k: int)
    ensures -1 <= k < |actions| && (k >= 0 ==> Moves(actions, k))
    ensures forall j :: k < j < |actions| ==> !Moves(actions, j)
  {
    if actions == [] then -1
    else
      var n := |actions| - 1;
      if Moves(actions, n) then n
      else
        var k := LastMove(actions[..n]);
        assert forall j :: 0 <= j < n ==> Moves(actions, j) == Moves(actions[..n], j) by {
          forall j | 0 <= j < n ensures Moves(actions, j) == Moves(actions[..n], j) {
            MovesSame(actions, n, j);
          }
        }
        k
  }

  lemma MovesSame(actions: seq<Action>, n: nat, j: nat)
    requires j < n <= |actions|
    ensures Moves(actions, j) == Moves(actions[..n], j)
    ensures Refuses(actions, j) == Refuses(actions[..n], j)
  {
    hide Run;
    assert actions[..n][..j] == actions[..j];
  }

  /** After any run the screen shows the thread of the latest move, and says the thread is
      gone exactly when that move was the server saying so: a server that cannot answer now
      leaves the address alone. */
  lemma {:induction false} ScreenFollows(actions: seq<Action>)
    requires MayRun(actions)
    ensures var k := LastMove(actions);
            && Run(actions).shown == (if k >= 0 then MovedTo(actions[k]) else None)
            && (Run(actions).gone <==> k >= 0 && Refuses(actions, k))
  {
    if actions != [] {
      hide Run, Next, May, Sound, Moves, Refuses;
      var n := |actions| - 1;
      var init := actions[..n];
      InitMay(actions, n);
      ScreenFollows(init);
      RunSound(init);
      MoveStep(actions);
      var k := LastMove(init);
      if k >= 0 {
        MovesSame(actions, n, k);
      }
      LastMoveIs(actions);
    } else {
      hide Next;
    }
  }

  lemma LastMoveIs(actions: seq<Action>)
    requires actions != []
    ensures var n := |actions| - 1; LastMove(actions) == if Moves(actions, n) then n else LastMove(actions[..n])
  {
    hide Moves;
  }

  lemma MoveStep(actions: seq<Action>)
    requires actions != []
    ensures var n := |actions| - 1;
            var s, after := Run(actions[..n]), Run(actions);
            if Moves(actions, n) then after.shown == MovedTo(actions[n]) && (after.gone <==> Refuses(actions, n))
            else after.shown == s.shown && after.gone == s.gone
  {
    var n := |actions| - 1;
    var s := Run(actions[..n]);
    NextMoves(s, actions[n]);
    assert Run(actions) == Next(s, actions[n]);
    hide Run, Next;
  }

  /** One step of it. */
  lemma NextMoves(s: State, a: Action)
    ensures var after := Next(s, a);
            var refused := a.Landed? && a.load == s.loadSeq && NoThread(a.reply);
            if a.Open? || refused || (a.Arrived? && a.e.Thread? && s.shown.None?)
            then after.shown == MovedTo(a) && (after.gone <==> refused)
            else after.shown == s.shown && after.gone == s.gone
  {
    hide Patched, Marked, ListFor, CardOpen;
  }

  // ---- what a load shows ----

  /** The reader neither goes anywhere nor asks, nothing new is shown, and the load does not
      come back. */
  predicate Waits(s: State, load: nat, a: Action) {
    match a
    case Open(thread) => thread == s.shown
    case Landed(other, _) => other != load
    case Asked(_, _, card) => s.busy || !CardOpen(s.turns, card)
    case Arrived(e, _) => e.Thread? ==> s.shown != Some(e.id)
    case Stopped(_, _) => true
  }

  predicate AllWait(s: State, load: nat, rest: seq<Action>) {
    forall k :: 0 <= k < |rest| ==> Waits(Later(s, rest[..k]), load, rest[k])
  }

  /** A state some actions on. */
  function Later(s: State, rest: seq<Action>): State {
    if rest == [] then s else Next(Later(s, rest[..|rest| - 1]), rest[|rest| - 1])
  }

  /** A load for the thread on screen is awaited. */
  predicate LoadsFor(s: State, load: nat, thread: string) {
    s.loading && s.loadSeq == load && load in s.loads && s.loads[load] == thread && s.shown == Some(thread)
  }

  /** Going to another thread awaits its record, and an empty screen until it comes. */
  lemma OpenedLoads(s: State, thread: string)
    requires Sound(s) && s.shown != Some(thread) && s.liveThread != Some(thread)
    ensures var t := Next(s, Open(Some(thread)));
            LoadsFor(t, s.loadSeq + 1, thread) && t.turns == [] && t.liveTurns == s.liveTurns
  {
  }

  predicate AllMay(s: State, rest: seq<Action>) {
    forall k :: 0 <= k < |rest| ==> May(Later(s, rest[..k]), rest[k])
  }

  lemma {:induction false} StillLoads(s: State, load: nat, thread: string, rest: seq<Action>)
    requires Sound(s) && LoadsFor(s, load, thread) && AllWait(s, load, rest) && AllMay(s, rest)
    ensures LoadsFor(Later(s, rest), load, thread) && Sound(Later(s, rest))
  {
    if rest != [] {
      hide Next, May, Sound, LoadsFor, Waits;
      var n := |rest| - 1;
      assert forall k :: 0 <= k <= n ==> rest[..n][..k] == rest[..k] by {
        forall k | 0 <= k <= n ensures rest[..n][..k] == rest[..k] {
        }
      }
      StillLoads(s, load, thread, rest[..n]);
      var t := Later(s, rest[..n]);
      assert Waits(t, load, rest[n]) && May(t, rest[n]);
      NextSound(t, rest[n]);
      StillLoadsStep(t, load, thread, rest[n]);
    }
  }

  lemma StillLoadsStep(s: State, load: nat, thread: string, a: Action)
    requires Sound(s) && LoadsFor(s, load, thread) && Waits(s, load, a) && May(s, a)
    ensures LoadsFor(Next(s, a), load, thread)
  {
    hide Patched, Marked, ListFor, CardOpen;
  }

  /** A thread opened is shown as its record has it, whatever else happens before the record
      comes, so long as the reader neither leaves nor asks. */
  lemma OpenedIsShown(actions: seq<Action>, thread: string, rest: seq<Action>, record: seq<Turn>)
    requires MayRun(actions) && Run(actions).shown != Some(thread) && Run(actions).liveThread != Some(thread)
    requires record != []
    requires var t := Next(Run(actions), Open(Some(thread)));
             AllMay(t, rest) && AllWait(t, Run(actions).loadSeq + 1, rest)
    ensures var load := Run(actions).loadSeq + 1;
            var t := Later(Next(Run(actions), Open(Some(thread))), rest);
            && May(t, Landed(load, Record(record)))
            && var shown := Next(t, Landed(load, Record(record)));
               && shown.turns == record && shown.shown == Some(thread) && !shown.loading && shown.gone == t.gone
  {
    hide Run, Later, AllMay, AllWait;
    RunSound(actions);
    var s := Run(actions);
    OpenedLoads(s, thread);
    var t := Next(s, Open(Some(thread)));
    assert May(s, Open(Some(thread)));
    NextSound(s, Open(Some(thread)));
    StillLoads(t, s.loadSeq + 1, thread, rest);
    LandsRecord(Later(t, rest), s.loadSeq + 1, thread, record);
  }

  lemma LandsRecord(s: State, load: nat, thread: string, record: seq<Turn>)
    requires LoadsFor(s, load, thread) && record != []
    ensures May(s, Landed(load, Record(record)))
    ensures var t := Next(s, Landed(load, Record(record)));
            t.turns == record && t.shown == Some(thread) && !t.loading && t.gone == s.gone
  {
  }

  // ---- how a turn ends on screen ----

  /** However the stream stops, a question's turn on screen is what arrived and then how it
      stopped: the server's own words where it refused, a lost connection where the stream
      broke off or closed before the turn was ended; and it leaves the turns before alone. */
  lemma StoppedReads(actions: seq<Action>, how: Stop, now: int)
    requires MayRun(actions) && Run(actions).busy && Run(actions).shown == Run(actions).liveThread
    requires Spoken(Run(actions), how) || Run(actions).turns != []
    ensures WritingOf(actions).Some?
    ensures var s, w, after := Run(actions), WritingOf(actions).value, Run(actions + [Stopped(how, now)]);
            w.card.None? ==>
              && |after.turns| == |w.before| + 1 && after.turns[..|w.before|] == w.before
              && after.turns[|w.before|] == Written(w.first, w.patches + LastWords(s, how, now))
              && OutcomeReads(w.first, w.patches + LastWords(s, how, now), after.turns[|w.before|])
              && (how.Refused? ==> after.turns[|w.before|].error == how.message)
              && (how.Cut? || (how.Over? && !s.run.closed) ==> after.turns[|w.before|].error == LOST)
  {
    hide Run, Next, Stops, Sound, MayRun, WritingOf, Follows, Parks, Written, LastWords, Spoken, OutcomeReads;
    RunSound(actions);
    ParkedIsFolded(actions);
    RunFollows(actions);
    OneStep(actions, Stopped(how, now));
    NextStops(Run(actions), how, now);
    BusyWrites(Run(actions), WritingOf(actions));
    var s, w := Run(actions), WritingOf(actions).value;
    if w.card.None? {
      StopShows(s, w, how, now);
      TurnReads(w.first, w.patches + LastWords(s, how, now));
      LastSaid(w, s, how, now);
    }
  }

  lemma LastSaid(w: Writing, s: State, how: Stop, now: int)
    requires var all := w.patches + LastWords(s, how, now); OutcomeReads(w.first, all, Written(w.first, all))
    ensures var t := Written(w.first, w.patches + LastWords(s, how, now));
            && (how.Refused? ==> t.error == how.message)
            && (how.Cut? || (how.Over? && !s.run.closed) ==> t.error == LOST)
  {
    hide Written, Latest;
    var all := w.patches + LastWords(s, how, now);
    if !(how.Over? && s.run.closed) {
      var n := |w.patches|;
      assert |all| == n + 1 && all[n].Fail?;
      assert Latest(all, Errs) == n;
    }
  }

  lemma StopShows(s: State, w: Writing, how: Stop, now: int)
    requires Sound(s) && Parks(s, Some(w)) && Follows(s, Some(w)) && s.busy && s.shown == s.liveThread
    requires w.card.None? && (Spoken(s, how) || s.turns != [])
    ensures Stops(s, how, now).turns == w.before + [Written(w.first, w.patches + LastWords(s, how, now))]
  {
    hide Written, PatchLast, WentWell, ListFor, CardOpen;
    if how.Over? && s.run.closed {
      assert w.patches + [] == w.patches;
    } else {
      var p := Fail(if how.Refused? then how.message else LOST, now);
      var t := s.(run := s.run.(ok := false));
      PatchParks(t, w, p);
      PatchLeaves(t, p);
      FailPaints(t, p);
    }
  }

  /** A stream that stops while the reader stands in another thread leaves it alone. */
  lemma StoppedElsewhere(actions: seq<Action>, how: Stop, now: int)
    requires MayRun(actions) && Run(actions).busy && Run(actions).shown.Some?
    requires Run(actions).shown != Run(actions).liveThread
    ensures var s, after := Run(actions), Run(actions + [Stopped(how, now)]);
            after.turns == s.turns && after.shown == s.shown && !after.busy
  {
    hide Run, Next, Stops, Sound, MayRun, WritingOf, Follows, Parks;
    RunSound(actions);
    ParkedIsFolded(actions);
    RunFollows(actions);
    OneStep(actions, Stopped(how, now));
    NextStops(Run(actions), how, now);
    BusyWrites(Run(actions), WritingOf(actions));
    StopsElsewhere(Run(actions), WritingOf(actions).value, how, now);
  }

  lemma StopsElsewhere(s: State, w: Writing, how: Stop, now: int)
    requires Follows(s, Some(w)) && s.shown.Some? && s.shown != s.liveThread
    ensures var after := Stops(s, how, now); after.turns == s.turns && after.shown == s.shown && !after.busy
  {
    hide Patched, Marked, ListFor, CardOpen, WentWell;
  }

  // ---- whether the stream ended its turn ----

  /** The stream has said how the turn ended, or not. */
  predicate EndSaid(patches: seq<Patch>) {
    exists k :: 0 <= k < |patches| && patches[k].Apply? && EndsTurn(patches[k].e)
  }

  predicate ClosesWith(s: State, w: Option<Writing>) {
    w.Some? ==> (s.run.closed <==> EndSaid(w.value.patches))
  }

  lemma NextCloses(s: State, w: Option<Writing>, a: Action)
    requires ClosesWith(s, w) && May(s, a) && (a.Arrived? ==> w.Some?)
    ensures ClosesWith(Next(s, a), NextWriting(s, w, a))
  {
    hide PatchLast, ListFor, CardOpen;
    match a
    case Open(_) =>
    case Landed(_, _) =>
    case Stopped(_, _) =>
    case Asked(turn, request, card) => PatchLeaves(Begun(s, turn, card), Keep(request));
    case Arrived(e, now) =>
      PatchLeaves(Around(s, e), Apply(e, now));
      var all := w.value.patches + [Apply(e, now)];
      assert all[|w.value.patches|] == Apply(e, now);
      assert forall k :: 0 <= k < |w.value.patches| ==> all[k] == w.value.patches[k];
  }

  /** In every run the stream counts as ended exactly when it has said a failure or an end. */
  lemma {:induction false} ClosedIffSaid(actions: seq<Action>)
    requires MayRun(actions)
    ensures ClosesWith(Run(actions), WritingOf(actions))
  {
    hide Next, May, Sound, NextWriting, ClosesWith, Parks;
    if actions == [] {
      assert ClosesWith(START, None) by { NoneCloses(); }
    } else {
      var n := |actions| - 1;
      InitMay(actions, n);
      ClosedIffSaid(actions[..n]);
      RunSound(actions[..n]);
      ParkedIsFolded(actions[..n]);
      assert May(Run(actions[..n]), actions[n]);
      ArrivedWrites(Run(actions[..n]), WritingOf(actions[..n]), actions[n]);
      NextCloses(Run(actions[..n]), WritingOf(actions[..n]), actions[n]);
    }
  }

  lemma NoneCloses()
    ensures ClosesWith(START, None)
  {
  }
}
