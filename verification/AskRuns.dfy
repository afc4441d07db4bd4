// What every run of the ask page keeps, and what a reader relies on.
module AskRuns {
  import opened Geometry
  import opened Turns
  import opened AskPage

  // ---- what every run keeps ----

  /** Filing and screen stand on one thread; a turn runs exactly while it is parked; the
      thread being written, on screen, shows exactly the parked turns; the current
      load is for the thread on screen, which is not the one being written. */
  predicate Sound(s: State) {
    && s.threadId == s.shown
    && (s.busy <==> s.liveTurns.Some?) && (s.liveTurns.Some? ==> s.liveTurns.value != [])
    && (!s.busy ==> s.liveThread.None?)
    && OnScreen(s)
    && (forall k <- s.loads.Keys :: k <= s.loadSeq)
    && (s.loading <==> s.loadSeq in s.loads)
    && (s.loading ==> s.shown == Some(s.loads[s.loadSeq]) && s.liveThread != s.shown)
    && (s.busy && s.run.closed ==> s.liveTurns.value[|s.liveTurns.value| - 1].done)
  }

  lemma PatchKeepsDone(t: Turn, p: Patch)
    requires Patched(t, p).Some?
    ensures t.done ==> Patched(t, p).value.done
    ensures p.Fail? || (p.Apply? && EndsTurn(p.e)) ==> Patched(t, p).value.done
  {
  }

  /** Sound but for the screen's turns and the end of the turn. */
  predicate Standing(s: State) {
    && s.threadId == s.shown
    && (s.busy <==> s.liveTurns.Some?) && (s.liveTurns.Some? ==> s.liveTurns.value != [])
    && (!s.busy ==> s.liveThread.None?)
    && (forall k <- s.loads.Keys :: k <= s.loadSeq)
    && (s.loading <==> s.loadSeq in s.loads)
    && (s.loading ==> s.shown == Some(s.loads[s.loadSeq]) && s.liveThread != s.shown)
  }

  /** Where the turn is being written shows what is parked; until that thread is known
      the screen may stand empty there, having been left and come back to. */
  predicate OnScreen(s: State) {
    s.liveTurns.Some? && s.shown == s.liveThread ==>
      s.turns == s.liveTurns.value || (s.liveThread.None? && s.turns == [])
  }

  predicate Ended(s: State) {
    s.busy && s.run.closed && s.liveTurns.Some? && s.liveTurns.value != [] ==>
      s.liveTurns.value[|s.liveTurns.value| - 1].done
  }

  lemma SoundParts(s: State)
    ensures Sound(s) <==> Standing(s) && OnScreen(s) && Ended(s)
  {
  }

  /** Everything but the turns is where it was. */
  lemma PatchStands(s: State, p: Patch)
    ensures Standing(s) ==> Standing(PatchLast(s, p))
    ensures OnScreen(s) ==> OnScreen(PatchLast(s, p))
  {
    hide Patched;
  }

  lemma PatchEnds(s: State, p: Patch)
    requires Ended(s) || p.Fail? || (p.Apply? && EndsTurn(p.e))
    ensures Ended(PatchLast(s, p))
  {
    if s.liveTurns.Some? && s.liveTurns.value != [] {
      var last := s.liveTurns.value[|s.liveTurns.value| - 1];
      AlwaysPatched(last, p);
      if Patched(last, p).Some? {
        PatchKeepsDone(last, p);
      }
    }
    hide Patched;
  }

  lemma AlwaysPatched(t: Turn, p: Patch)
    ensures p.Fail? || p.Keep? || (p.Apply? && (EndsTurn(p.e) || p.e.Thread?)) ==> Patched(t, p).Some?
  {
  }

  lemma PatchSound(s: State, p: Patch)
    requires Standing(s) && OnScreen(s) && (Ended(s) || p.Fail? || (p.Apply? && EndsTurn(p.e)))
    ensures Sound(PatchLast(s, p))
  {
    hide Standing, OnScreen, Ended, PatchLast, Sound;
    PatchStands(s, p);
    PatchEnds(s, p);
    SoundParts(PatchLast(s, p));
  }

  /** A thread event repaints the screen whatever it showed, once it shows that thread. */
  lemma ThreadPaints(s: State, e: Event, now: int)
    requires Standing(s) && s.busy && e.Thread?
    ensures OnScreen(PatchLast(s, Apply(e, now)))
  {
    AlwaysPatched(s.liveTurns.value[|s.liveTurns.value| - 1], Apply(e, now));
    hide Patched;
  }

  lemma AroundStands(s: State, e: Event, now: int)
    requires Sound(s) && May(s, Arrived(e, now))
    ensures Standing(Around(s, e)) && Around(s, e).busy
    ensures e.Thread? || OnScreen(Around(s, e))
    ensures EndsTurn(e) || Ended(Around(s, e))
  {
  }

  lemma ArrivesSound(s: State, e: Event, now: int)
    requires Sound(s) && May(s, Arrived(e, now))
    ensures Sound(Arrives(s, e, now))
  {
    hide Standing, OnScreen, Ended, PatchLast, Sound, Around, May;
    AroundStands(s, e, now);
    var t := Around(s, e);
    if e.Thread? {
      ThreadPaints(t, e, now);
    }
    PatchStands(t, Apply(e, now));
    PatchEnds(t, Apply(e, now));
    SoundParts(PatchLast(t, Apply(e, now)));
  }

  lemma BegunSound(s: State, turn: Turn, card: Option<Card>)
    requires Sound(s) && !s.busy
    ensures Sound(Begun(s, turn, card))
  {
    hide ListFor;
  }

  lemma AskSound(s: State, turn: Turn, request: string, card: Option<Card>)
    requires Sound(s)
    ensures Sound(Asks(s, turn, request, card))
  {
    hide Sound, Begun, PatchLast, Standing, OnScreen, Ended;
    if !s.busy && CardOpen(s.turns, card) {
      BegunSound(s, turn, card);
      SoundParts(Begun(s, turn, card));
      PatchSound(Begun(s, turn, card), Keep(request));
    }
  }

  lemma OpenSound(s: State, thread: Option<string>)
    requires Sound(s)
    ensures Sound(Opened(s, thread))
  {
  }

  lemma LandSound(s: State, load: nat, reply: Reply)
    requires Sound(s) && load in s.loads
    ensures Sound(Lands(s, load, reply))
  {
  }

  lemma DropSound(s: State)
    requires Standing(s)
    ensures Sound(Dropped(s))
  {
    hide Marked;
  }

  lemma StopSound(s: State, how: Stop, now: int)
    requires Sound(s) && s.busy
    ensures Sound(Stops(s, how, now))
  {
    hide Sound, PatchLast, Dropped;
    SoundParts(s);
    if !(how.Over? && s.run.closed) {
      var t := s.(run := s.run.(ok := false));
      assert Standing(t);
      hide Standing;
      PatchStands(t, Fail(if how.Refused? then how.message else LOST, now));
      DropSound(Failing(s, if how.Refused? then how.message else LOST, now));
    } else {
      DropSound(s);
    }
  }

  lemma NextSound(s: State, a: Action)
    requires Sound(s) && May(s, a)
    ensures Sound(Next(s, a))
  {
    hide Sound, Opened, Lands, Asks, Arrives, Stops;
    match a
    case Open(thread) => OpenSound(s, thread);
    case Landed(load, reply) => LandSound(s, load, reply);
    case Asked(turn, request, card) => AskSound(s, turn, request, card);
    case Arrived(e, now) => ArrivesSound(s, e, now);
    case Stopped(how, now) => StopSound(s, how, now);
  }

  /** Every run keeps the page sound: in particular, with the thread being written on
      screen, what it shows is what is parked, and the next question is filed under the
      thread on screen. */
  lemma {:induction false} RunSound(actions: seq<Action>)
    requires MayRun(actions)
    ensures Sound(Run(actions))
  {
    hide Next, May, Sound;
    if actions == [] {
      StartSound();
    } else {
      var n := |actions| - 1;
      var init := actions[..n];
      InitMay(actions, n);
      RunSound(init);
      assert May(Run(actions[..n]), actions[n]);
      NextSound(Run(init), actions[n]);
    }
  }

  lemma StartSound()
    ensures Sound(START)
  {
  }

  lemma InitMay(actions: seq<Action>, n: nat)
    requires MayRun(actions) && n <= |actions|
    ensures MayRun(actions[..n])
  {
    hide Next, May;
    forall k | 0 <= k < n ensures May(Run(actions[..n][..k]), actions[..n][k]) {
      assert actions[..n][..k] == actions[..k];
    }
  }

  // ---- the parked turn is what arrived ----

  /** A turn being written: the turns it was asked after, where and on which card; those
      turns with the card marked, how it started, what has happened. */
  datatype Writing = Writing(asked: seq<Turn>, thread: Option<string>, card: Option<Card>,
                             before: seq<Turn>, first: Turn, patches: seq<Patch>)

  /** A question just asked. */
  function WritingStart(s: State, turn: Turn, card: Option<Card>, patches: seq<Patch>): Writing {
    Writing(s.turns, s.threadId, card, ListFor(s.turns, card), turn, patches)
  }

  /** What a step adds to the writing. */
  function NextWriting(s: State, w: Option<Writing>, a: Action): Option<Writing> {
    match a
    case Asked(turn, request, card) =>
      if s.busy || !CardOpen(s.turns, card) then w
      else Some(WritingStart(s, turn, card, if card.Some? then [] else [Keep(request)]))
    case Arrived(e, now) => if w.Some? then Some(w.value.(patches := w.value.patches + [Apply(e, now)])) else None
    case Stopped(_, _) => None
    case _ => w
  }

  /** What a run has written into the turn now running. */
  function WritingOf(actions: seq<Action>): Option<Writing> {
    if actions == [] then None
    else
      var n := |actions| - 1;
      NextWriting(Run(actions[..n]), WritingOf(actions[..n]), actions[n])
  }

  predicate Parks(s: State, w: Option<Writing>) {
    if w.None? then s.liveTurns.None?
    else s.liveTurns == Some(w.value.before + [Written(w.value.first, w.value.patches)])
  }

  lemma PatchParks(s: State, w: Writing, p: Patch)
    requires Parks(s, Some(w))
    ensures Parks(PatchLast(s, p), Some(w.(patches := w.patches + [p])))
  {
    var all := w.patches + [p];
    assert all[..|all| - 1] == w.patches;
    hide Patched;
  }

  /** In every run the parked turns are those of the thread as it was asked in, then the
      turn asked with exactly the stream's own patches and the events applied in order. */
  lemma {:induction false} ParkedIsFolded(actions: seq<Action>)
    requires MayRun(actions)
    ensures Parks(Run(actions), WritingOf(actions))
  {
    hide Next, May, Sound, NextWriting, Written;
    if actions != [] {
      var n := |actions| - 1;
      InitMay(actions, n);
      ParkedIsFolded(actions[..n]);
      RunSound(actions[..n]);
      assert May(Run(actions[..n]), actions[n]);
      NextParks(Run(actions[..n]), WritingOf(actions[..n]), actions[n]);
    }
  }

  lemma NextParks(s: State, w: Option<Writing>, a: Action)
    requires Sound(s) && Parks(s, w) && May(s, a)
    ensures Parks(Next(s, a), NextWriting(s, w, a))
  {
    hide Opened, Lands, Asks, Arrives, Stops, Sound, Written, CardOpen, ListFor, Parks;
    match a
    case Open(thread) => ElsewhereParks(s, w, a);
    case Landed(load, reply) => ElsewhereParks(s, w, a);
    case Stopped(how, now) => StopParks(s, how, now);
    case Asked(turn, request, card) => AskParks(s, w, turn, request, card);
    case Arrived(e, now) =>
      BusyWrites(s, w);
      ArriveParks(s, w.value, e, now);
  }

  lemma BusyWrites(s: State, w: Option<Writing>)
    requires Sound(s) && s.busy && Parks(s, w)
    ensures w.Some?
  {
  }

  lemma ElsewhereParks(s: State, w: Option<Writing>, a: Action)
    requires Parks(s, w) && (a.Open? || a.Landed?)
    ensures Parks(Next(s, a), w)
  {
  }

  lemma StopParks(s: State, how: Stop, now: int)
    ensures Parks(Stops(s, how, now), None)
  {
    hide Patched;
  }

  lemma ArriveParks(s: State, w: Writing, e: Event, now: int)
    requires Parks(s, Some(w))
    ensures Parks(Arrives(s, e, now), Some(w.(patches := w.patches + [Apply(e, now)])))
  {
    PatchParks(Around(s, e), w, Apply(e, now));
    hide PatchLast;
  }

  lemma BegunParks(s: State, turn: Turn, card: Option<Card>)
    ensures Parks(Begun(s, turn, card), Some(WritingStart(s, turn, card, [])))
  {
    hide ListFor;
    assert Written(turn, []) == turn;
  }

  lemma AskParks(s: State, w: Option<Writing>, turn: Turn, request: string, card: Option<Card>)
    requires Sound(s) && Parks(s, w)
    ensures Parks(Asks(s, turn, request, card),
                  if s.busy || !CardOpen(s.turns, card) then w
                  else Some(WritingStart(s, turn, card, if card.Some? then [] else [Keep(request)])))
  {
    hide PatchLast, ListFor, Sound, Begun, Parks, Written, CardOpen;
    if !s.busy && CardOpen(s.turns, card) {
      var t, start := Begun(s, turn, card), WritingStart(s, turn, card, []);
      BegunParks(s, turn, card);
      PatchParks(t, start, Keep(request));
      assert [] + [Keep(request)] == [Keep(request)];
    }
  }

  // ---- what a reader relies on ----

  /** With the thread being written on screen, what it shows is the fold; a question whose
      thread is not known yet, too, unless it was left and come back to with nothing
      arrived since. */
  lemma ScreenIsFolded(actions: seq<Action>)
    requires MayRun(actions) && Run(actions).busy && Run(actions).shown == Run(actions).liveThread
    requires Run(actions).liveThread.Some? || Run(actions).turns != []
    ensures WritingOf(actions).Some?
    ensures var w := WritingOf(actions).value; Run(actions).turns == w.before + [Written(w.first, w.patches)]
  {
    RunSound(actions);
    ParkedIsFolded(actions);
    hide Run, WritingOf;
  }

  /** A load that is not the latest changes nothing; one that lands is for the thread on
      screen, which is not the one being written. */
  lemma SupersededNeverLands(actions: seq<Action>, load: nat, reply: Reply)
    requires MayRun(actions) && load in Run(actions).loads
    ensures var s, after := Run(actions), Run(actions + [Landed(load, reply)]);
            && (load != s.loadSeq ==> after == s.(loads := s.loads - {load}))
            && (load == s.loadSeq ==> s.loading && s.shown == Some(s.loads[load]) && s.liveThread != s.shown)
            && after.liveTurns == s.liveTurns && after.liveThread == s.liveThread
  {
    RunSound(actions);
    assert (actions + [Landed(load, reply)])[..|actions|] == actions;
    hide Run;
  }

  /** Opening another thread, or asking, retires the load that was in the air. */
  lemma LoadRetired(s: State, a: Action)
    requires Sound(s) && s.loading && May(s, a)
    requires (a.Open? && a.thread != s.shown) || (a.Asked? && !s.busy && CardOpen(s.turns, a.card))
    ensures s.loadSeq in Next(s, a).loads && s.loadSeq != Next(s, a).loadSeq
  {
    hide Patched;
  }

  /** A question goes to the thread on screen, and no other is asked while a turn runs. */
  lemma FiledUnderScreen(actions: seq<Action>, turn: Turn, request: string, card: Option<Card>)
    requires MayRun(actions)
    ensures var s, after := Run(actions), Run(actions + [Asked(turn, request, card)]);
            after.filed == if s.busy || !CardOpen(s.turns, card) then s.filed else s.filed + [s.shown]
  {
    RunSound(actions);
    assert (actions + [Asked(turn, request, card)])[..|actions|] == actions;
    hide Run, Patched;
  }

  /** Whatever is written while the reader stands in another thread leaves it alone. */
  lemma ElsewhereUntouched(s: State, e: Event, now: int)
    requires Sound(s) && May(s, Arrived(e, now)) && s.shown.Some? && s.shown != s.liveThread
    requires e.Thread? ==> s.shown != Some(e.id)
    ensures var after := Arrives(s, e, now);
            && after.turns == s.turns && after.shown == s.shown && after.threadId == s.threadId
            && after.loading == s.loading && after.loads == s.loads && after.gone == s.gone
  {
    hide Patched;
  }

  /** A turn left running and come back to is read from the parked copy, never loaded. */
  lemma ComingBack(actions: seq<Action>, thread: string)
    requires MayRun(actions) && Run(actions).liveThread == Some(thread)
    ensures WritingOf(actions).Some?
    ensures var w, after := WritingOf(actions).value, Run(actions + [Open(Some(thread))]);
            && after.turns == w.before + [Written(w.first, w.patches)] && after.shown == Some(thread) && !after.loading
            && after.loads == Run(actions).loads
  {
    RunSound(actions);
    ParkedIsFolded(actions);
    assert (actions + [Open(Some(thread))])[..|actions|] == actions;
    hide Run, WritingOf;
  }

  lemma OneStep(actions: seq<Action>, a: Action)
    ensures Run(actions + [a]) == Next(Run(actions), a)
  {
    hide Next;
    assert (actions + [a])[..|actions|] == actions;
  }

  lemma NextStops(s: State, how: Stop, now: int)
    ensures Next(s, Stopped(how, now)) == Stops(s, how, now)
  {
    hide Stops;
  }

  /** However its stream stops, a turn on screen ends there, a first question whose thread
      never came in too; only one that was left and come back to before its thread was
      known, and then ended with nothing more to say, stays away from the screen. */
  lemma StoppedTurnEnds(actions: seq<Action>, how: Stop, now: int)
    requires MayRun(actions) && Run(actions).busy && Run(actions).shown == Run(actions).liveThread
    ensures var s, after := Run(actions), Run(actions + [Stopped(how, now)]);
            && !after.busy && s.liveTurns.Some?
            && if Spoken(s, how) || s.turns != [] then EndsLike(after.turns, s.liveTurns.value) else after.turns == []
  {
    hide Run, Next, Stops, Sound, MayRun, EndsLike, Spoken;
    RunSound(actions);
    OneStep(actions, Stopped(how, now));
    NextStops(Run(actions), how, now);
    StopEnds(Run(actions), how, now);
  }

  /** The end of the stream is written into the turn. */
  predicate Spoken(s: State, how: Stop) {
    !how.Over? || !s.run.closed
  }

  /** As many turns as were parked, the last of them done. */
  predicate EndsLike(turns: seq<Turn>, parked: seq<Turn>) {
    |turns| == |parked| > 0 && turns[|turns| - 1].done
  }

  lemma StopEnds(s: State, how: Stop, now: int)
    requires Sound(s) && s.busy && s.shown == s.liveThread
    ensures var after := Stops(s, how, now);
            && !after.busy && s.liveTurns.Some?
            && if Spoken(s, how) || s.turns != [] then EndsLike(after.turns, s.liveTurns.value) else after.turns == []
  {
    hide Sound, PatchLast, Dropped;
    SoundParts(s);
    if Spoken(s, how) {
      FailEnds(s, if how.Refused? then how.message else LOST, now);
      DropEnds(Failing(s, if how.Refused? then how.message else LOST, now), s.liveTurns.value);
    } else if s.turns != [] {
      DropEnds(s, s.liveTurns.value);
    } else {
      DropEmpty(s);
    }
  }

  lemma FailEnds(s: State, message: string, now: int)
    requires Standing(s) && s.busy && s.shown == s.liveThread
    ensures EndsLike(Failing(s, message, now).turns, s.liveTurns.value)
  {
  }

  lemma DropEnds(s: State, parked: seq<Turn>)
    requires EndsLike(s.turns, parked)
    ensures !Dropped(s).busy && EndsLike(Dropped(s).turns, parked)
  {
  }

  lemma DropEmpty(s: State)
    requires s.turns == []
    ensures !Dropped(s).busy && Dropped(s).turns == []
  {
  }

  // ---- a card answered ----

  /** The running turn is the one asked: its card was open where it was asked and is
      marked in what is parked, its thread is kept, and it went well so long as no
      failure arrived. */
  predicate Follows(s: State, w: Option<Writing>) {
    w.Some? ==>
      && s.run.card == w.value.card && s.run.thread == w.value.thread
      && w.value.before == ListFor(w.value.asked, w.value.card) && CardOpen(w.value.asked, w.value.card)
      && (w.value.thread.Some? ==> s.liveThread == w.value.thread)
      && (s.run.ok <==> WentWell(w.value.patches))
  }

  predicate WentWell(patches: seq<Patch>) {
    forall k :: 0 <= k < |patches| ==> !(patches[k].Apply? && patches[k].e.Failed?)
  }

  lemma PatchLeaves(s: State, p: Patch)
    ensures PatchLast(s, p).run == s.run && PatchLast(s, p).liveThread == s.liveThread
  {
    hide Patched;
  }

  lemma NextFollows(s: State, w: Option<Writing>, a: Action)
    requires Follows(s, w) && May(s, a) && (a.Arrived? ==> w.Some?)
    ensures Follows(Next(s, a), NextWriting(s, w, a))
  {
    hide PatchLast, ListFor, CardOpen;
    match a
    case Open(_) =>
    case Landed(_, _) =>
    case Stopped(_, _) =>
    case Asked(turn, request, card) => PatchLeaves(Begun(s, turn, card), Keep(request));
    case Arrived(e, now) =>
      PatchLeaves(Around(s, e), Apply(e, now));
      var all := w.value.patches + [Apply(e, now)];
      assert all[|all| - 1] == Apply(e, now) && forall k :: 0 <= k < |w.value.patches| ==> all[k] == w.value.patches[k];
  }

  lemma {:induction false} RunFollows(actions: seq<Action>)
    requires MayRun(actions)
    ensures Follows(Run(actions), WritingOf(actions))
  {
    hide Next, May, Sound, NextWriting, Follows, Parks;
    if actions == [] {
      assert Follows(START, None) by { NoneFollows(); }
    } else {
      var n := |actions| - 1;
      InitMay(actions, n);
      RunFollows(actions[..n]);
      RunSound(actions[..n]);
      ParkedIsFolded(actions[..n]);
      assert May(Run(actions[..n]), actions[n]);
      ArrivedWrites(Run(actions[..n]), WritingOf(actions[..n]), actions[n]);
      NextFollows(Run(actions[..n]), WritingOf(actions[..n]), actions[n]);
    }
  }

  lemma NoneFollows()
    ensures Follows(START, None)
  {
  }

  lemma ArrivedWrites(s: State, w: Option<Writing>, a: Action)
    requires Sound(s) && Parks(s, w) && May(s, a)
    ensures a.Arrived? ==> w.Some?
  {
  }

  /** What a stop writes into the turn. */
  function LastWords(s: State, how: Stop, now: int): seq<Patch> {
    if how.Over? && s.run.closed then [] else [Fail(if how.Refused? then how.message else LOST, now)]
  }

  /** A card answered in a known thread, whatever arrived since and wherever the reader has
      been, with that thread on screen as its turn stops: if the turn failed, every turn
      before it is as it was before the answer, the card open again; if it went well, the
      card stays marked. */
  lemma FailedCardReopens(actions: seq<Action>, how: Stop, now: int)
    requires MayRun(actions) && WritingOf(actions).Some?
    requires var w := WritingOf(actions).value; w.card.Some? && w.thread.Some? && Run(actions).shown == w.thread
    ensures var s, w, after := Run(actions), WritingOf(actions).value, Run(actions + [Stopped(how, now)]);
            var failed := !WentWell(w.patches) || !how.Over? || !s.run.closed;
            && w.card.value.turn < |w.asked| && w.asked[w.card.value.turn].chosenIdx.None?
            && after.turns
               == (if failed then w.asked else Marked(w.asked, w.card.value.turn, Some(w.card.value.choice)))
                            + [Written(w.first, w.patches + LastWords(s, how, now))]
  {
    hide Run, Next, Stops, Sound, MayRun, WritingOf, Follows, Parks, Written, WentWell, LastWords;
    RunSound(actions);
    ParkedIsFolded(actions);
    RunFollows(actions);
    OneStep(actions, Stopped(how, now));
    NextStops(Run(actions), how, now);
    StopReopens(Run(actions), WritingOf(actions).value, how, now);
  }

  lemma StopReopens(s: State, w: Writing, how: Stop, now: int)
    requires Sound(s) && Parks(s, Some(w)) && Follows(s, Some(w))
    requires w.card.Some? && w.thread.Some? && s.shown == w.thread
    ensures w.card.value.turn < |w.asked| && w.asked[w.card.value.turn].chosenIdx.None?
    ensures var failed := !WentWell(w.patches) || !how.Over? || !s.run.closed;
            Stops(s, how, now).turns
            == (if failed then w.asked else Marked(w.asked, w.card.value.turn, Some(w.card.value.choice)))
             + [Written(w.first, w.patches + LastWords(s, how, now))]
  {
    hide Written, PatchLast, WentWell;
    if how.Over? && s.run.closed {
      assert w.patches + [] == w.patches;
      Reopens(s, w, Written(w.first, w.patches));
    } else {
      var p := Fail(if how.Refused? then how.message else LOST, now);
      var t := s.(run := s.run.(ok := false));
      PatchParks(t, w, p);
      PatchLeaves(t, p);
      FailPaints(t, p);
      Reopens(PatchLast(t, p), w, Written(w.first, w.patches + [p]));
    }
  }

  lemma FailPaints(s: State, p: Patch)
    requires s.liveTurns.Some? && s.liveTurns.value != [] && p.Fail? && s.shown == s.liveThread
    ensures PatchLast(s, p).shown == s.shown && PatchLast(s, p).liveTurns == Some(PatchLast(s, p).turns)
  {
  }

  lemma Reopens(s: State, w: Writing, last: Turn)
    requires s.turns == w.before + [last] && s.run.card == w.card && s.run.thread == w.thread && s.shown == w.thread
    requires w.card.Some? && w.before == ListFor(w.asked, w.card) && CardOpen(w.asked, w.card)
    ensures var marked := Marked(w.asked, w.card.value.turn, Some(w.card.value.choice));
            Dropped(s).turns == (if s.run.ok then marked else w.asked) + [last]
  {
    var i := w.card.value.turn;
    if !s.run.ok {
      var after := Marked(s.turns, i, None);
      assert forall k :: 0 <= k < |w.asked| ==> after[k] == w.asked[k];
      assert after == w.asked + [last];
    }
  }

  /** A new thread's event may arrive while its record is still awaited on screen only at
      this price: the record then lands over the turn being written. */
  lemma AwaitedOverwrites(s: State, e: Event, now: int, record: seq<Turn>)
    requires Sound(s) && s.busy && e.Thread? && s.liveThread.None? && Awaited(s, e.id) && record != []
    ensures var after := Lands(Arrives(s, e, now), s.loadSeq, Record(record));
            && after.shown == after.liveThread == Some(e.id) && after.turns == record
            && after.liveTurns == Arrives(s, e, now).liveTurns
  {
    hide Patched;
  }

  /** It can come to that: a first question asked, a thread opened, and the question's
      thread turning out to be that very one. */
  lemma AwaitedRun(turn: Turn, request: string, id: string, now: int, record: seq<Turn>)
    requires record != []
    ensures var actions := [Asked(turn, request, None)] + [Open(Some(id))];
            var s := Run(actions);
            && MayRun(actions) && s.busy && s.liveThread.None? && s.loadSeq == 2 && Awaited(s, id)
            && var after := Next(Next(s, Arrived(Thread(id, None), now)), Landed(2, Record(record)));
               && after.shown == after.liveThread == Some(id) && after.turns == record
               && after.liveTurns.Some? && |after.liveTurns.value| == 1
  {
    hide Run, MayRun, Next, Sound, Awaited;
    var ask := Asked(turn, request, None);
    var first, actions := [ask], [ask] + [Open(Some(id))];
    assert [] + [ask] == first;
    OneStep([], ask);
    OneStep(first, Open(Some(id)));
    assert Run([]) == START by { NothingRun(); }
    AskedFirst(turn, request);
    OpenedAfter(Run(first), id);
    TwoMay(ask, Open(Some(id)));
    RunSound(actions);
    AwaitedLands(Run(actions), id, now, record);
  }

  lemma NothingRun()
    ensures Run([]) == START
  {
  }

  lemma TwoMay(a: Action, b: Action)
    requires a.Asked? && b.Open?
    ensures MayRun([a] + [b])
  {
    hide Run;
  }

  lemma AwaitedLands(s: State, id: string, now: int, record: seq<Turn>)
    requires Sound(s) && s.busy && s.liveThread.None? && s.loadSeq == 2 && Awaited(s, id) && record != []
    requires s.liveTurns.Some? && |s.liveTurns.value| == 1
    ensures var after := Next(Next(s, Arrived(Thread(id, None), now)), Landed(2, Record(record)));
            && after.shown == after.liveThread == Some(id) && after.turns == record
            && after.liveTurns.Some? && |after.liveTurns.value| == 1
  {
    hide Sound, Patched, Arrives, Lands;
    AwaitedOverwrites(s, Thread(id, None), now, record);
    ThreadKeepsCount(s, id, now);
  }

  lemma AskedFirst(turn: Turn, request: string)
    ensures var s := Next(START, Asked(turn, request, None));
            && s.busy && s.liveThread.None? && s.shown.None? && s.loadSeq == 1
            && s.liveTurns.Some? && |s.liveTurns.value| == 1
  {
  }

  lemma OpenedAfter(s: State, id: string)
    requires s.busy && s.liveThread.None? && s.shown.None?
    ensures var t := Next(s, Open(Some(id)));
            && t.busy && t.liveThread.None? && t.loadSeq == s.loadSeq + 1 && Awaited(t, id)
            && t.liveTurns == s.liveTurns
  {
  }

  lemma ThreadKeepsCount(s: State, id: string, now: int)
    requires s.liveTurns.Some?
    ensures var t := Arrives(s, Thread(id, None), now); t.liveTurns.Some? && |t.liveTurns.value| == |s.liveTurns.value|
  {
    hide Patched;
  }
}
