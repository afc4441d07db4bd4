// The reader's verdict on a thread, told to the server one write at a time: while one
// is out, further choices only move what the next will say (ui/src/ThreadFeedback.tsx).
module Feedback {
  import opened Geometry

  datatype Verdict = Verdict(verdict: int, reason: string, upTo: int)

  /** What a write says: clear the verdict, or put one. */
  datatype Choice = Clear | Put(verdict: int, reason: string)

  /** What the writer is at: nothing, a write out (which the server has stored or not),
      reading the reply's figures, or reading the truth back after a failure. */
  datatype Phase = Idle | Writing(target: Choice, stored: bool) | Reading(target: Choice) | Reloading

  datatype Action =
    | Vote(verdict: int, newest: int)
    | Pick(reason: string, newest: int)
    | Loaded(got: Option<Verdict>)
    | Stored
    | Replied
    | Figures(upTo: int)
    | Refused
    | Lost
    | Garbled
    | Reread(held: Option<Option<Verdict>>)

  /** The page's refs, then what the server holds, every write sent to it, and every
      choice made. */
  datatype State = State(fb: Option<Verdict>, want: Option<Choice>, phase: Phase, touched: bool,
                         server: Choice, sent: seq<Choice>, choices: seq<Choice>)

  /** A failure of the writer: a write the server refuses, a reply lost after the write
      is stored, figures that cannot be read. */
  predicate Fails(a: Action) {
    a.Refused? || a.Lost? || a.Garbled?
  }

  /** The reader votes or picks a reason. */
  predicate Chosen(a: Action) {
    a.Vote? || a.Pick?
  }

  function Start(server: Choice): State {
    State(None, None, Idle, false, server, [], [])
  }

  /** What a verdict on screen shows of a choice. */
  function Shown(c: Choice, upTo: int): Option<Verdict> {
    if c.Clear? then None else Some(Verdict(c.verdict, c.reason, upTo))
  }

  /** The same thumb again takes the verdict back. */
  function VoteSays(fb: Option<Verdict>, verdict: int): Choice {
    if fb.Some? && fb.value.verdict == verdict then Clear else Put(verdict, "")
  }

  /** The next write, unless one is out. */
  function Sends(s: State): State {
    if s.phase.Idle? && s.want.Some? then
      s.(want := None, phase := Writing(s.want.value, false), sent := s.sent + [s.want.value])
    else s
  }

  function Chooses(s: State, c: Choice, newest: int): State {
    Sends(s.(fb := Shown(c, newest), want := Some(c), choices := s.choices + [c]))
  }

  /** Whichever way the writer fails, what was waiting is dropped and the truth read back. */
  function FailedState(s: State): State {
    if s.phase.Writing? || s.phase.Reading? then s.(want := None, phase := Reloading) else s
  }

  function Next(s: State, a: Action): State {
    match a
    case Vote(verdict, newest) => Chooses(s.(touched := true), VoteSays(s.fb, verdict), newest)
    case Pick(reason, newest) => Chooses(s, Put(-1, reason), newest)
    case Loaded(got) => if s.touched then s else s.(fb := got)
    case Stored => if s.phase.Writing? then s.(server := s.phase.target, phase := s.phase.(stored := true)) else s
    case Replied =>
      if !s.phase.Writing? then s
      else if s.want.None? && s.phase.target.Put? then s.(phase := Reading(s.phase.target))
      else Sends(s.(phase := Idle))
    case Figures(upTo) => if s.phase.Reading? then Sends(s.(fb := Shown(s.phase.target, upTo), phase := Idle)) else s
    case Refused => FailedState(s)
    case Lost => FailedState(s)
    case Garbled => FailedState(s)
    case Reread(got) => if s.phase.Reloading? then s.(fb := if got.Some? then got.value else s.fb, phase := Idle) else s
  }

  /** What may happen: a reason is picked after a thumbs down only; a write is stored once
      and answered after, or its reply lost, or it is refused before; its figures are read
      after the answer, or cannot be. */
  predicate May(s: State, a: Action) {
    match a
    case Pick(_, _) => s.touched
    case Stored => s.phase.Writing? && !s.phase.stored
    case Replied => s.phase.Writing? && s.phase.stored
    case Figures(_) => s.phase.Reading?
    case Refused => s.phase.Writing? && !s.phase.stored
    case Lost => s.phase.Writing? && s.phase.stored
    case Garbled => s.phase.Reading?
    case Reread(_) => s.phase.Reloading?
    case _ => true
  }

  function Run(s: State, actions: seq<Action>): State
    decreases |actions|
  {
    if actions == [] then s else Run(Next(s, actions[0]), actions[1..])
  }

  predicate MayRun(s: State, actions: seq<Action>)
    decreases |actions|
  {
    actions == [] || (May(s, actions[0]) && MayRun(Next(s, actions[0]), actions[1..]))
  }

  predicate NoneFails(actions: seq<Action>) {
    forall k :: 0 <= k < |actions| ==> !Fails(actions[k])
  }

  // ---- the control itself ----

  class Thumbs {
    var fb: Option<Verdict>
    var want: Option<Choice>
    var phase: Phase
    var touched: bool
    ghost var server: Choice
    var sent: seq<Choice>
    ghost var choices: seq<Choice>

    ghost function Now(): State
      reads this
    {
      State(fb, want, phase, touched, server, sent, choices)
    }

    constructor (held: Choice)
      ensures Now() == Start(held)
    {
      fb, want, phase, touched, server, sent, choices := None, None, Idle, false, held, [], [];
    }

    /** One turn of the writing loop: the waiting choice sent, unless a write is out. */
    method Sync()
      modifies this
      ensures Now() == Sends(old(Now()))
    {
      if !phase.Idle? || want.None? {
        return;
      }
      var target := want.value;
      want := None;
      sent := sent + [target];
      phase := Writing(target, false);
    }

    method OnVote(verdict: int, newest: int)
      modifies this
      ensures Now() == Next(old(Now()), Vote(verdict, newest))
    {
      touched := true;
      if fb.Some? && fb.value.verdict == verdict {
        fb := None;
        want := Some(Clear);
      } else {
        fb := Some(Verdict(verdict, "", newest));
        want := Some(Put(verdict, ""));
      }
      choices := choices + [want.value];
      Sync();
    }

    method OnPick(reason: string, newest: int)
      modifies this
      ensures Now() == Next(old(Now()), Pick(reason, newest))
    {
      fb := Some(Verdict(-1, reason, newest));
      want := Some(Put(-1, reason));
      choices := choices + [want.value];
      Sync();
    }

    method OnLoaded(got: Option<Verdict>)
      modifies this
      ensures Now() == Next(old(Now()), Loaded(got))
    {
      if !touched {
        fb := got;
      }
    }

    method OnReply()
      requires phase.Writing?
      modifies this
      ensures Now() == Next(old(Now()), Replied)
    {
      if want.None? && phase.target.Put? {
        phase := Reading(phase.target);
        return;
      }
      phase := Idle;
      Sync();
    }

    /** The server's own figures, shown whatever the reader has done since the reply. */
    method OnFigures(upTo: int)
      requires phase.Reading?
      modifies this
      ensures Now() == Next(old(Now()), Figures(upTo))
    {
      fb := Shown(phase.target, upTo);
      phase := Idle;
      Sync();
    }

    /** The catch: a write refused, its reply lost, its figures unreadable. */
    method OnFailure(a: Action)
      requires Fails(a) && May(Now(), a)
      modifies this
      ensures Now() == Next(old(Now()), a)
    {
      want := None;
      phase := Reloading;
    }

    method OnReread(got: Option<Option<Verdict>>)
      requires phase.Reloading?
      modifies this
      ensures Now() == Next(old(Now()), Reread(got))
    {
      if got.Some? {
        fb := got.value;
      }
      phase := Idle;
    }
  }

  // ---- what every run keeps ----

  /** a with some of b left out. */
  predicate Subsequence(a: seq<Choice>, b: seq<Choice>) {
    a == []
    || (b != [] && (|| (a[|a| - 1] == b[|b| - 1] && Subsequence(a[..|a| - 1], b[..|b| - 1]))
                    || Subsequence(a, b[..|b| - 1])))
  }

  lemma {:induction false} SubsequenceDrop(a: seq<Choice>, c: Choice, b: seq<Choice>)
    requires Subsequence(a + [c], b)
    ensures Subsequence(a, b)
  {
    assert (a + [c])[..|a|] == a;
    if (a + [c])[|a|] == b[|b| - 1] && Subsequence(a, b[..|b| - 1]) {
    } else {
      SubsequenceDrop(a, c, b[..|b| - 1]);
    }
  }

  lemma SubsequenceBoth(a: seq<Choice>, b: seq<Choice>, c: Choice)
    requires Subsequence(a, b)
    ensures Subsequence(a + [c], b + [c])
  {
    assert (a + [c])[..|a|] == a && (b + [c])[..|b|] == b;
  }

  /** The writes sent, and the one waiting. */
  function Told(s: State): seq<Choice> {
    s.sent + if s.want.Some? then [s.want.value] else []
  }

  /** The writes the server has stored. */
  function StoredOf(s: State): seq<Choice> {
    if s.phase.Writing? && !s.phase.stored && s.sent != [] then s.sent[..|s.sent| - 1] else s.sent
  }

  function LastOr(writes: seq<Choice>, c: Choice): Choice {
    if writes == [] then c else writes[|writes| - 1]
  }

  /** While nothing fails: what was and will be said leaves choices out but not the
      last, and the server holds the last write it stored. */
  ghost predicate Faithful(held: Choice, s: State) {
    && Subsequence(Told(s), s.choices)
    && (s.choices != [] ==> Told(s) != [] && LastOr(Told(s), Clear) == LastOr(s.choices, Clear))
    && !s.phase.Reloading?
    && (s.phase.Writing? || s.phase.Reading? ==> s.sent != [] && LastOr(s.sent, Clear) == s.phase.target)
    && (s.want.Some? ==> !s.phase.Idle?)
    && s.server == LastOr(StoredOf(s), held)
    && (s.choices != [] ==> s.touched)
  }

  /** The screen shows the last choice. */
  predicate OnScreen(s: State) {
    s.choices != [] ==> ShowsChoice(s.fb, LastOr(s.choices, Clear))
  }

  /** The screen shows a choice: its verdict and reason, or none. */
  predicate ShowsChoice(fb: Option<Verdict>, c: Choice) {
    if c.Clear? then fb.None? else fb.Some? && fb.value.verdict == c.verdict && fb.value.reason == c.reason
  }

  /** A choice made: sent at once, or waiting behind the write that is out. */
  lemma ChooseTells(s: State, c: Choice, newest: int)
    requires s.want.Some? ==> !s.phase.Idle?
    ensures var t := Chooses(s, c, newest);
            && Told(t) == s.sent + [c] && t.choices == s.choices + [c] && t.server == s.server && t.touched == s.touched
            && (t.want.Some? ==> !t.phase.Idle?)
            && if s.phase.Idle? then t.phase == Writing(c, false) && t.sent == s.sent + [c] && StoredOf(t) == s.sent
               else t.phase == s.phase && t.sent == s.sent && StoredOf(t) == StoredOf(s)
  {
    if s.phase.Idle? {
      assert (s.sent + [c])[..|s.sent|] == s.sent;
    }
  }

  lemma ChooseFaithful(held: Choice, s: State, c: Choice, newest: int)
    requires Faithful(held, s) && s.touched
    ensures Faithful(held, Chooses(s, c, newest))
  {
    hide Subsequence, Chooses, Told;
    ChooseTells(s, c, newest);
    assert Subsequence(s.sent + [c], s.choices + [c]) by { ChoiceReplaces(s, c); }
  }

  /** A new choice takes the place of the one waiting. */
  lemma ChoiceReplaces(s: State, c: Choice)
    requires Subsequence(Told(s), s.choices)
    ensures Subsequence(s.sent + [c], s.choices + [c])
  {
    if s.want.Some? {
      SubsequenceDrop(s.sent, s.want.value, s.choices);
    } else {
      assert Told(s) == s.sent;
    }
    SubsequenceBoth(s.sent, s.choices, c);
  }

  lemma ReplyFaithful(held: Choice, s: State, a: Action)
    requires Faithful(held, s) && May(s, a) && (a.Replied? || a.Figures?)
    ensures Faithful(held, Next(s, a))
  {
    hide Subsequence;
    var after := Next(s, a);
    if s.want.Some? {
      assert after.phase.Writing? && after.sent == Told(s) && Told(after) == Told(s);
      assert after.sent[..|after.sent| - 1] == s.sent;
    } else {
      assert Told(s) == s.sent == Told(after);
    }
  }

  lemma NextFaithful(held: Choice, s: State, a: Action)
    requires Faithful(held, s) && May(s, a) && !Fails(a)
    ensures Faithful(held, Next(s, a))
  {
    hide Subsequence;
    match a
    case Vote(verdict, newest) => ChooseFaithful(held, s.(touched := true), VoteSays(s.fb, verdict), newest);
    case Pick(reason, newest) => ChooseFaithful(held, s, Put(-1, reason), newest);
    case Replied => ReplyFaithful(held, s, a);
    case Figures(_) => ReplyFaithful(held, s, a);
    case Stored =>
      assert Told(Next(s, a)) == Told(s);
    case Loaded(_) =>
    case Reread(_) =>
  }

  lemma {:induction false} RunFaithful(held: Choice, s: State, actions: seq<Action>)
    requires Faithful(held, s) && MayRun(s, actions) && NoneFails(actions)
    ensures Faithful(held, Run(s, actions))
    decreases |actions|
  {
    hide Faithful, Next, May, Fails;
    if actions != [] {
      NextFaithful(held, s, actions[0]);
      RunFaithful(held, Next(s, actions[0]), actions[1..]);
    }
  }

  lemma StartFaithful(held: Choice)
    ensures Faithful(held, Start(held))
  {
  }

  /** In every run in which nothing fails the writes sent are a subsequence of the
      reader's choices; and once nothing is out or waiting, the server holds the last
      choice. */
  lemma LastChoiceWins(held: Choice, actions: seq<Action>)
    requires MayRun(Start(held), actions) && NoneFails(actions)
    ensures var s := Run(Start(held), actions);
            && Subsequence(s.sent, s.choices)
            && (s.phase.Idle? ==> s.want.None? && s.server == LastOr(s.choices, held))
  {
    StartFaithful(held);
    RunFaithful(held, Start(held), actions);
    FaithfulSettles(held, Run(Start(held), actions));
    hide Run, Subsequence, Faithful;
  }

  lemma FaithfulSettles(held: Choice, s: State)
    requires Faithful(held, s)
    ensures Subsequence(s.sent, s.choices)
    ensures s.phase.Idle? ==> s.want.None? && s.server == LastOr(s.choices, held)
  {
    if s.want.Some? {
      SubsequenceDrop(s.sent, s.want.value, s.choices);
    } else {
      assert Told(s) == s.sent;
    }
    hide Subsequence;
  }

  /** Nothing is lost on the way: the writes out or waiting end with the last choice. */
  lemma LastChoiceTold(held: Choice, actions: seq<Action>)
    requires MayRun(Start(held), actions) && NoneFails(actions) && Run(Start(held), actions).choices != []
    ensures var s := Run(Start(held), actions); LastOr(Told(s), held) == LastOr(s.choices, held)
  {
    StartFaithful(held);
    RunFaithful(held, Start(held), actions);
    hide Run, Subsequence;
  }

  // ---- after a failure ----

  /** What the run has done so far forgotten, the page as it is. */
  function Forgotten(s: State): State {
    s.(sent := [], choices := [])
  }

  lemma NextForgets(s: State, a: Action, sent: seq<Choice>, choices: seq<Choice>)
    ensures Next(s.(sent := sent + s.sent, choices := choices + s.choices), a)
         == Next(s, a).(sent := sent + Next(s, a).sent, choices := choices + Next(s, a).choices)
    ensures May(s.(sent := sent + s.sent, choices := choices + s.choices), a) <==> May(s, a)
  {
  }

  /** A run does the same whatever was sent and chosen before it. */
  lemma {:induction false} RunForgets(s: State, actions: seq<Action>, sent: seq<Choice>, choices: seq<Choice>)
    requires MayRun(s.(sent := sent + s.sent, choices := choices + s.choices), actions)
    ensures MayRun(s, actions)
    ensures Run(s.(sent := sent + s.sent, choices := choices + s.choices), actions)
         == Run(s, actions).(sent := sent + Run(s, actions).sent, choices := choices + Run(s, actions).choices)
    decreases |actions|
  {
    hide Next, May;
    if actions != [] {
      NextForgets(s, actions[0], sent, choices);
      RunForgets(Next(s, actions[0]), actions[1..], sent, choices);
    }
  }

  lemma {:induction false} RunSplits(s: State, before: seq<Action>, after: seq<Action>)
    requires MayRun(s, before + after)
    ensures MayRun(s, before) && MayRun(Run(s, before), after)
    ensures Run(s, before + after) == Run(Run(s, before), after)
    decreases |before|
  {
    hide Next, May;
    if before == [] {
      assert before + after == after;
    } else {
      assert (before + after)[1..] == before[1..] + after;
      RunSplits(Next(s, before[0]), before[1..], after);
    }
  }

  /** Whatever failed before, from any rest on in which nothing waits a run that does not
      fail ends with the server holding the last choice made in it, and with no choice
      made, what it held at that rest. */
  lemma RecoveredChoiceWins(held: Choice, before: seq<Action>, after: seq<Action>)
    requires MayRun(Start(held), before + after) && NoneFails(after)
    requires Run(Start(held), before).phase.Idle? && Run(Start(held), before).want.None?
    ensures var s, t := Run(Start(held), before), Run(Start(held), before + after);
            && s.choices <= t.choices
            && (t.phase.Idle? ==> t.want.None? && t.server == LastOr(t.choices[|s.choices|..], s.server))
  {
    hide MayRun, Run, Faithful, Subsequence;
    RunSplits(Start(held), before, after);
    var s := Run(Start(held), before);
    assert Forgotten(s).(sent := s.sent + [], choices := s.choices + []) == s;
    RunForgets(Forgotten(s), after, s.sent, s.choices);
    RestFaithful(s);
    RunFaithful(s.server, Forgotten(s), after);
    FaithfulSettles(s.server, Run(Forgotten(s), after));
  }

  lemma RestFaithful(s: State)
    requires s.phase.Idle? && s.want.None?
    ensures Faithful(s.server, Forgotten(s))
  {
  }

  /** No choice is made while the truth is read back after a failure. */
  predicate NoneWhileReloading(s: State, actions: seq<Action>)
    decreases |actions|
  {
    actions == []
    || ((Chosen(actions[0]) ==> !s.phase.Reloading?) && NoneWhileReloading(Next(s, actions[0]), actions[1..]))
  }

  /** Nothing waits that nothing will send. */
  predicate NothingStranded(s: State) {
    s.phase.Idle? || s.phase.Reloading? ==> s.want.None?
  }

  lemma NextStrandsNone(s: State, a: Action)
    requires NothingStranded(s) && (Chosen(a) ==> !s.phase.Reloading?)
    ensures NothingStranded(Next(s, a))
  {
  }

  lemma {:induction false} StrandsNone(s: State, actions: seq<Action>)
    requires NothingStranded(s) && NoneWhileReloading(s, actions)
    ensures NothingStranded(Run(s, actions))
    decreases |actions|
  {
    hide NothingStranded, Next, Chosen;
    if actions != [] {
      NextStrandsNone(s, actions[0]);
      StrandsNone(Next(s, actions[0]), actions[1..]);
    }
  }

  /** In every run, whatever fails in it, nothing waits once nothing is out, if no choice
      is made while the truth is read back. */
  lemma NothingWaits(held: Choice, actions: seq<Action>)
    requires MayRun(Start(held), actions) && NoneWhileReloading(Start(held), actions)
    ensures var s := Run(Start(held), actions); s.phase.Idle? ==> s.want.None?
  {
    StrandsNone(Start(held), actions);
    hide Run;
  }

  /** The rest of a read-back: whatever happens up to its end, a choice waits then if and
      only if one waited already or one is made. */
  lemma {:induction false} RereadStrands(s: State, during: seq<Action>, got: Option<Option<Verdict>>)
    requires s.phase.Reloading? && MayRun(s, during) && (forall k :: 0 <= k < |during| ==> !during[k].Reread?)
    ensures var after := Next(Run(s, during), Reread(got));
            && after.phase.Idle?
            && (after.want.Some? <==> s.want.Some? || (exists k :: 0 <= k < |during| && Chosen(during[k])))
    decreases |during|
  {
    if during != [] {
      var rest := during[1..];
      var t := Next(s, during[0]);
      ReloadingStays(s, during[0]);
      hide Next, May;
      assert forall k :: 0 <= k < |rest| ==> rest[k] == during[k + 1];
      RereadStrands(t, rest, got);
      ChosenSplits(during);
    }
  }

  lemma ReloadingStays(s: State, a: Action)
    requires s.phase.Reloading? && May(s, a) && !a.Reread?
    ensures Next(s, a).phase.Reloading?
    ensures Next(s, a).want.Some? <==> s.want.Some? || Chosen(a)
  {
  }

  lemma ChosenSplits(actions: seq<Action>)
    requires actions != []
    ensures (exists k :: 0 <= k < |actions| && Chosen(actions[k]))
       <==> Chosen(actions[0]) || (exists k :: 0 <= k < |actions[1..]| && Chosen(actions[1..][k]))
  {
    var rest := actions[1..];
    assert forall k :: 0 <= k < |rest| ==> rest[k] == actions[k + 1];
    if k :| 0 <= k < |actions| && Chosen(actions[k]) {
      assert k > 0 ==> Chosen(rest[k - 1]);
    }
  }

  // ---- the screen ----

  /** Every step but a failure leaves the screen showing the last choice, if the figures
      read with the reply are not older than it. */
  lemma NextShows(held: Choice, s: State, a: Action)
    requires Faithful(held, s) && OnScreen(s) && May(s, a) && !Fails(a) && (a.Figures? ==> s.want.None?)
    ensures OnScreen(Next(s, a))
  {
    hide Subsequence;
    if a.Figures? {
      assert Told(s) == s.sent;
    }
  }

  /** And only then: figures read after a newer choice put the older one back on screen,
      unless the two show the same. */
  lemma FiguresShow(held: Choice, s: State, upTo: int)
    requires Faithful(held, s) && s.phase.Reading? && s.choices != []
    ensures OnScreen(Next(s, Figures(upTo))) <==> s.want.None? || ShowsChoice(Shown(s.phase.target, upTo), s.want.value)
  {
    hide Subsequence;
    if s.want.None? {
      assert Told(s) == s.sent;
    }
  }

  /** No choice is made between a reply and the reading of its figures. */
  predicate NoneWhileReading(s: State, actions: seq<Action>)
    decreases |actions|
  {
    actions == [] || ((Chosen(actions[0]) ==> !s.phase.Reading?) && NoneWhileReading(Next(s, actions[0]), actions[1..]))
  }

  predicate Quiet(s: State) {
    s.phase.Reading? ==> s.want.None?
  }

  lemma NextQuiet(s: State, a: Action)
    requires Quiet(s) && (Chosen(a) ==> !s.phase.Reading?)
    ensures Quiet(Next(s, a))
  {
  }

  lemma {:induction false} StaysOnScreen(held: Choice, s: State, actions: seq<Action>)
    requires Faithful(held, s) && OnScreen(s) && Quiet(s)
    requires MayRun(s, actions) && NoneFails(actions) && NoneWhileReading(s, actions)
    ensures OnScreen(Run(s, actions))
    decreases |actions|
  {
    hide Faithful, OnScreen, Next, May, Fails, Chosen;
    if actions != [] {
      var a := actions[0];
      QuietSays(s, a);
      hide Quiet;
      NextFaithful(held, s, a);
      NextShows(held, s, a);
      NextQuiet(s, a);
      StaysOnScreen(held, Next(s, a), actions[1..]);
    }
  }

  lemma QuietSays(s: State, a: Action)
    requires Quiet(s) && May(s, a)
    ensures a.Figures? ==> s.want.None?
  {
  }

  /** Then the screen shows the reader's last choice all through. */
  lemma ScreenShowsLast(held: Choice, actions: seq<Action>)
    requires MayRun(Start(held), actions) && NoneFails(actions) && NoneWhileReading(Start(held), actions)
    ensures OnScreen(Run(Start(held), actions))
  {
    StartFaithful(held);
    StaysOnScreen(held, Start(held), actions);
  }

  /** Without that, a verdict taken back while the figures are read stays on screen for
      good, though the server holds none. */
  lemma StaleVerdict(s: State, upTo: int)
    requires s.phase.Reading? && s.phase.target.Put? && s.want == Some(Clear)
    ensures var s1 := Next(s, Figures(upTo)); var s2 := Next(s1, Stored); var s3 := Next(s2, Replied);
            && May(s, Figures(upTo)) && May(s1, Stored) && May(s2, Replied)
            && s3.phase.Idle? && s3.want.None? && s3.server == Clear && s3.fb.Some?
  {
  }

  // ---- the runs in which it goes wrong ----

  /** A run and one step more. */
  lemma {:induction false} OneMore(s: State, run: seq<Action>, now: State, a: Action)
    requires MayRun(s, run) && Run(s, run) == now && May(now, a)
    ensures MayRun(s, run + [a]) && Run(s, run + [a]) == Next(now, a)
    decreases |run|
  {
    hide May, Next;
    if run == [] {
      assert (run + [a])[1..] == [];
    } else {
      assert (run + [a])[1..] == run[1..] + [a];
      OneMore(Next(s, run[0]), run[1..], now, a);
    }
  }

  lemma NoStep(s: State)
    ensures MayRun(s, []) && Run(s, []) == s
  {
  }

  const UP := Put(1, "")
  const PINNED := Verdict(1, "", 7)

  lemma VoteOnce()
    ensures Next(Start(Clear), Vote(1, 7)) == State(Some(PINNED), None, Writing(UP, false), true, Clear, [UP], [UP])
  {
  }

  lemma StaleHead(run: seq<Action>)
    requires run == [Vote(1, 7), Stored, Replied]
    ensures MayRun(Start(Clear), run)
    ensures Run(Start(Clear), run) == State(Some(PINNED), None, Reading(UP), true, UP, [UP], [UP])
  {
    hide MayRun, Run;
    VoteOnce();
    NoStep(Start(Clear));
    OneMore(Start(Clear), [], Start(Clear), Vote(1, 7));
    var s1 := State(Some(PINNED), None, Writing(UP, false), true, Clear, [UP], [UP]);
    OneMore(Start(Clear), [] + [Vote(1, 7)], s1, Stored);
    var s2 := State(Some(PINNED), None, Writing(UP, true), true, UP, [UP], [UP]);
    OneMore(Start(Clear), [] + [Vote(1, 7)] + [Stored], s2, Replied);
    assert run == [] + [Vote(1, 7)] + [Stored] + [Replied];
  }

  /** It happens in a run of two votes in which nothing fails: a thumb up, and the same
      thumb again between the reply and its figures. */
  lemma StaleRun(run: seq<Action>)
    requires run == [Vote(1, 7), Stored, Replied] + [Vote(1, 7)] + [Figures(7)] + [Stored] + [Replied]
    ensures MayRun(Start(Clear), run) && NoneFails(run)
    ensures var s := Run(Start(Clear), run);
            && s.phase.Idle? && s.want.None?
            && s.choices == [UP, Clear] && s.server == Clear && s.fb == Some(PINNED)
  {
    hide MayRun, Run;
    var head := [Vote(1, 7), Stored, Replied];
    StaleHead(head);
    var s3 := State(Some(PINNED), None, Reading(UP), true, UP, [UP], [UP]);
    OneMore(Start(Clear), head, s3, Vote(1, 7));
    var s4 := State(None, Some(Clear), Reading(UP), true, UP, [UP], [UP, Clear]);
    TakenBack(s3, s4);
    OneMore(Start(Clear), head + [Vote(1, 7)], s4, Figures(7));
    var s5 := Next(s4, Figures(7));
    OneMore(Start(Clear), head + [Vote(1, 7)] + [Figures(7)], s5, Stored);
    OneMore(Start(Clear), head + [Vote(1, 7)] + [Figures(7)] + [Stored], Next(s5, Stored), Replied);
  }

  lemma TakenBack(s3: State, s4: State)
    requires s3 == State(Some(PINNED), None, Reading(UP), true, UP, [UP], [UP])
    requires s4 == State(None, Some(Clear), Reading(UP), true, UP, [UP], [UP, Clear])
    ensures Next(s3, Vote(1, 7)) == s4
  {
  }

  /** A refused write breaks the server's side of it: a choice made while the truth is
      read back waits with nothing to send it. */
  lemma RefusalStrands(run: seq<Action>)
    requires run == [] + [Vote(1, 7)] + [Refused] + [Vote(-1, 7)] + [Reread(Some(None))]
    ensures MayRun(Start(Clear), run)
    ensures var s := Run(Start(Clear), run);
            s.phase.Idle? && s.want == Some(Put(-1, "")) && s.server == Clear && s.fb.None?
  {
    hide MayRun, Run;
    VoteOnce();
    NoStep(Start(Clear));
    OneMore(Start(Clear), [], Start(Clear), Vote(1, 7));
    var s1 := Next(Start(Clear), Vote(1, 7));
    OneMore(Start(Clear), [] + [Vote(1, 7)], s1, Refused);
    var s2 := Next(s1, Refused);
    OneMore(Start(Clear), [] + [Vote(1, 7)] + [Refused], s2, Vote(-1, 7));
    var s3 := Next(s2, Vote(-1, 7));
    OneMore(Start(Clear), [] + [Vote(1, 7)] + [Refused] + [Vote(-1, 7)], s3, Reread(Some(None)));
  }

  /** A reply lost after its write was stored drops the choice waiting behind it: the
      server keeps the older one, and nothing will tell it the newer. */
  lemma LostReplyKeepsOlder(s: State, newest: int, verdict: int, got: Option<Option<Verdict>>)
    requires s.phase.Writing? && s.phase.stored && s.server == s.phase.target
    requires VoteSays(s.fb, verdict) != s.server
    ensures var s1 := Next(s, Vote(verdict, newest)); var s2 := Next(s1, Lost); var s3 := Next(s2, Reread(got));
            && May(s, Vote(verdict, newest)) && May(s1, Lost) && May(s2, Reread(got))
            && s3.phase.Idle? && s3.want.None?
            && s3.choices == s.choices + [VoteSays(s.fb, verdict)] && s3.server == s.server != VoteSays(s.fb, verdict)
  {
  }

  /** It happens to a reader who changes a thumb up to a thumb down before the reply. */
  lemma LostReplyRun(run: seq<Action>, got: Option<Option<Verdict>>)
    requires run == [] + [Vote(1, 7)] + [Stored] + [Vote(-1, 7)] + [Lost] + [Reread(got)]
    ensures MayRun(Start(Clear), run)
    ensures var s := Run(Start(Clear), run);
            && s.phase.Idle? && s.want.None? && s.choices == [UP, Put(-1, "")] && s.server == UP
  {
    hide MayRun, Run;
    VoteOnce();
    NoStep(Start(Clear));
    OneMore(Start(Clear), [], Start(Clear), Vote(1, 7));
    var s1 := State(Some(PINNED), None, Writing(UP, false), true, Clear, [UP], [UP]);
    OneMore(Start(Clear), [] + [Vote(1, 7)], s1, Stored);
    var s2 := State(Some(PINNED), None, Writing(UP, true), true, UP, [UP], [UP]);
    OneMore(Start(Clear), [] + [Vote(1, 7)] + [Stored], s2, Vote(-1, 7));
    var s3 := Next(s2, Vote(-1, 7));
    OneMore(Start(Clear), [] + [Vote(1, 7)] + [Stored] + [Vote(-1, 7)], s3, Lost);
    var s4 := Next(s3, Lost);
    OneMore(Start(Clear), [] + [Vote(1, 7)] + [Stored] + [Vote(-1, 7)] + [Lost], s4, Reread(got));
    LostReplyKeepsOlder(s2, 7, -1, got);
  }

  // ---- what each step shows and keeps ----

  /** The verdict on screen after a step: what the reader chose, a thumb pressed again taking it
      back; what the load found, until the reader chose; the server's figures for the write
      answered; what is read back. Nothing else moves it. */
  lemma StepShows(s: State, a: Action)
    requires May(s, a)
    ensures var fb := Next(s, a).fb;
            && (a.Vote? ==> fb == (if s.fb.Some? && s.fb.value.verdict == a.verdict then None
                                   else Some(Verdict(a.verdict, "", a.newest))))
            && (a.Pick? ==> fb == Some(Verdict(-1, a.reason, a.newest)))
            && (a.Loaded? ==> fb == if s.touched then s.fb else a.got)
            && (a.Figures? && s.phase.target.Put? ==>
                  fb == Some(Verdict(s.phase.target.verdict, s.phase.target.reason, a.upTo)))
            && (a.Reread? && a.held.Some? ==> fb == a.held.value)
            && (a.Stored? || a.Replied? || Fails(a) || (a.Reread? && a.held.None?) ==> fb == s.fb)
    ensures Next(s, a).touched <==> s.touched || a.Vote?
  {
  }

  /** Each choice is kept as made, and a write leaves only when none is out. */
  lemma StepTells(s: State, a: Action)
    requires May(s, a)
    ensures var t := Next(s, a);
            && (a.Vote? ==> t.choices == s.choices + [if s.fb.Some? && s.fb.value.verdict == a.verdict then Clear
                                                      else Put(a.verdict, "")])
            && (a.Pick? ==> t.choices == s.choices + [Put(-1, a.reason)])
            && (!Chosen(a) ==> t.choices == s.choices)
            && (t.sent != s.sent ==> t.phase.Writing? && t.sent == s.sent + [t.phase.target] && !t.phase.stored
                                     && (s.phase.Idle? || a.Replied? || a.Figures?))
  {
  }
}
